/** Flat records and the failures that abort a run.

    Both the AWM extraction (lines 45-51) and the age join (lines 127-139)
    turn a participant's `awm` sessions into one flat record each: a header of
    fixed columns, overlaid by the session's own measurement fields. */
module Records {
  import opened Wrappers
  import opened JsonValues

  /** One row of a table: column name to value, in column order. */
  type Record = Members

  /** The Python exceptions that escape to the script's generic handler
      (lines 242-245), which prints them and ends the run without an export. */
  datatype Fault =
      /** `data.keys()` on a document that is not an object (line 23). */
    | DocumentNotMapping
      /** `len()` / `.keys()` on an `audcog-online` value that is not an object (lines 28, 31). */
    | AudcogNotMapping
      /** `.items()` on an `awm` value that is not an object (lines 45, 127). */
    | AwmNotMapping(participant: string)
      /** `**session` / `update(session)` on a session that is not an object (lines 49, 138). */
    | SessionNotMapping(participant: string, session: string)
      /** `'misc' in value` where the value is a number, a boolean or null (line 101). */
    | NotIterable(participant: string)
      /** `value['misc']` where the value is a list or string holding `misc` (line 101). */
    | NotSubscriptable(participant: string)
      /** `int(age)` on an infinite float: OverflowError is not caught (line 114). */
    | AgeOverflow(participant: string, timestamp: string)
      /** `.unique()` on a `participant_id` column that holds a list or an
          object, which pandas cannot hash (line 233). */
    | UnhashableParticipantId

  /** The fixed leading columns of a session's record, then `extra` columns. */
  function Header(id: string, timestamp: string, extra: Members): Record {
    [("participant_id", JString(id)), ("session_timestamp", JString(timestamp))] + extra
  }

  /** Every session of an `awm` block is an object. */
  predicate AllObjects(sessions: Members) {
    forall i :: 0 <= i < |sessions| ==> sessions[i].1.JObject?
  }

  /** One record per session, in session order: the header overlaid by the
      session's fields. The first session that is not an object aborts. */
  function SessionRows(id: string, extra: Members, sessions: Members): (r: Result<seq<Record>, Fault>)
    ensures r.Success? <==> AllObjects(sessions)
    ensures r.Success? ==> |r.value| == |sessions|
    ensures r.Failure? ==> r.error.SessionNotMapping? && r.error.participant == id
  {
    if |sessions| == 0 then Success([])
    else
      assert forall i :: 1 <= i < |sessions| ==> sessions[i] == sessions[1..][i - 1];
      match sessions[0].1
      case JObject(fields) =>
        (match SessionRows(id, extra, sessions[1..])
         case Success(rest) => Success([Update(Header(id, sessions[0].0, extra), fields)] + rest)
         case Failure(f) => Failure(f))
      case _ => Failure(SessionNotMapping(id, sessions[0].0))
  }

  /** Row `i` is session `i`'s fields laid over the header built from that
      session's timestamp. */
  lemma {:induction false} SessionRowsAt(id: string, extra: Members, sessions: Members, i: nat)
    requires SessionRows(id, extra, sessions).Success? && i < |sessions|
    ensures sessions[i].1.JObject?
    ensures SessionRows(id, extra, sessions).value[i]
      == Update(Header(id, sessions[i].0, extra), sessions[i].1.members)
  {
    if i > 0 {
      assert sessions[1..][i - 1] == sessions[i];
      SessionRowsAt(id, extra, sessions[1..], i - 1);
    }
  }

  /** A failure names the first session that is not an object. */
  lemma {:induction false} SessionRowsFault(id: string, extra: Members, sessions: Members) returns (i: nat)
    requires SessionRows(id, extra, sessions).Failure?
    ensures i < |sessions| && !sessions[i].1.JObject?
    ensures forall j :: 0 <= j < i ==> sessions[j].1.JObject?
    ensures SessionRows(id, extra, sessions).error == SessionNotMapping(id, sessions[i].0)
  {
    if sessions[0].1.JObject? {
      var k := SessionRowsFault(id, extra, sessions[1..]);
      i := k + 1;
      assert sessions[1..][k] == sessions[i];
      assert forall j :: 1 <= j < i ==> sessions[j] == sessions[1..][j - 1];
    } else {
      i := 0;
    }
  }

  /** A column of a session's record holds the session's own value when the
      session has that field, and the header's value otherwise. */
  lemma RowField(id: string, timestamp: string, extra: Members, fields: Members, k: string)
    requires Distinct(fields)
    ensures HasKey(fields, k) ==>
      Get(Update(Header(id, timestamp, extra), fields), k) == Get(fields, k)
    ensures !HasKey(fields, k) ==>
      Get(Update(Header(id, timestamp, extra), fields), k) == Get(Header(id, timestamp, extra), k)
  {
    UpdateGet(Header(id, timestamp, extra), fields, k);
  }
}
