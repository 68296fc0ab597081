/** The AWM extraction loop (audcog_agm_agehistogram.py, lines 35-56): every
    participant of `audcog-online` either yields one flat record per AWM
    session or is listed as skipped, with a reason. */
module Extraction {
  import opened Wrappers
  import opened JsonValues
  import opened Records

  /** Why a participant was skipped: its value is not an object (the script
      prints it as `sessions: <value>`), or it has no `awm` key. */
  datatype SkipReason = NotAMapping(value: Json) | NoAwmData

  datatype Skip = Skip(participant: string, reason: SkipReason)

  /** The two lists the loop builds: `awm_records` and `skipped_participants`. */
  datatype Extracted = Extracted(records: seq<Record>, skipped: seq<Skip>)

  /** One pass of the loop body (lines 39-56) for participant `id`. */
  function ExtractParticipant(id: string, v: Json): (r: Result<Extracted, Fault>)
    ensures r.Success? ==> r.value.records == [] || r.value.skipped == []
    ensures !v.JObject? ==> r == Success(Extracted([], [Skip(id, NotAMapping(v))]))
    ensures v.JObject? && !HasKey(v.members, "awm") ==> r == Success(Extracted([], [Skip(id, NoAwmData)]))
    ensures v.JObject? && HasKey(v.members, "awm") && r.Success? ==> r.value.skipped == []
    ensures v.JObject? && Get(v.members, "awm") == Some(JObject([])) ==> r == Success(Extracted([], []))
  {
    match v
    case JObject(m) =>
      (match Get(m, "awm")
       case None => Success(Extracted([], [Skip(id, NoAwmData)]))
       case Some(JObject(sessions)) =>
         (match SessionRows(id, [], sessions)
          case Success(rows) => Success(Extracted(rows, []))
          case Failure(f) => Failure(f))
       case Some(_) => Failure(AwmNotMapping(id)))
    case _ => Success(Extracted([], [Skip(id, NotAMapping(v))]))
  }

  /** Running the loop over one stretch of participants and then another:
      the first fault wins, otherwise both lists are concatenated. */
  function Chain(a: Result<Extracted, Fault>, b: Result<Extracted, Fault>): Result<Extracted, Fault> {
    match a
    case Failure(f) => Failure(f)
    case Success(x) =>
      match b
      case Failure(f) => Failure(f)
      case Success(y) => Success(Extracted(x.records + y.records, x.skipped + y.skipped))
  }

  /** The whole loop of lines 38-56 over the participants in document order. */
  function Extract(ps: Members): Result<Extracted, Fault>
  {
    if |ps| == 0 then Success(Extracted([], []))
    else Chain(ExtractParticipant(ps[0].0, ps[0].1), Extract(ps[1..]))
  }

  /** The participant gets through the loop body without an exception: if it
      has an `awm` value, that is an object whose sessions are all objects. */
  predicate Extractable(v: Json) {
    match v
    case JObject(m) =>
      (match Get(m, "awm")
       case Some(awm) =>
         awm.JObject? && forall i :: 0 <= i < |awm.members| ==> awm.members[i].1.JObject?
       case None => true)
    case _ => true
  }

  /** The number of AWM sessions a participant holds (0 when it has none). */
  function SessionCount(v: Json): nat {
    if v.JObject? && Get(v.members, "awm").Some? && Get(v.members, "awm").value.JObject?
    then |Get(v.members, "awm").value.members|
    else 0
  }

  /** A participant the script reports as skipped. */
  predicate Skipped(v: Json) {
    !v.JObject? || !HasKey(v.members, "awm")
  }

  function TotalSessions(ps: Members): nat {
    if |ps| == 0 then 0 else SessionCount(ps[0].1) + TotalSessions(ps[1..])
  }

  function SkippedCount(ps: Members): nat {
    if |ps| == 0 then 0 else (if Skipped(ps[0].1) then 1 else 0) + SkippedCount(ps[1..])
  }

  /** The extraction raises exactly when some participant is not extractable. */
  lemma {:induction false} ExtractSucceeds(ps: Members)
    ensures Extract(ps).Success? <==> forall i :: 0 <= i < |ps| ==> Extractable(ps[i].1)
  {
    if |ps| > 0 {
      ExtractSucceeds(ps[1..]);
      var v := ps[0].1;
      assert ExtractParticipant(ps[0].0, v).Success? <==> Extractable(v) by {
        if v.JObject? && Get(v.members, "awm").Some? && Get(v.members, "awm").value.JObject? {
          var _ := SessionRows(ps[0].0, [], Get(v.members, "awm").value.members);
        }
      }
      assert forall i :: 1 <= i < |ps| ==> ps[i] == ps[1..][i - 1];
    }
  }

  /** A successful extraction emits one record per AWM session of every
      participant, and one skip entry per skipped participant. */
  lemma {:induction false} ExtractCounts(ps: Members)
    ensures Extract(ps).Success? ==>
      |Extract(ps).value.records| == TotalSessions(ps)
      && |Extract(ps).value.skipped| == SkippedCount(ps)
  {
    if |ps| > 0 {
      ExtractCounts(ps[1..]);
    }
  }

  /** Extraction over a concatenation is the chain of the two extractions:
      records and skips appear in participant order. */
  lemma {:induction false} ExtractAppend(a: Members, b: Members)
    ensures Extract(a + b) == Chain(Extract(a), Extract(b))
    decreases |a|
  {
    if |a| == 0 {
      assert a + b == b;
      if Extract(b).Success? {
        var y := Extract(b).value;
        assert [] + y.records == y.records && [] + y.skipped == y.skipped;
      }
    } else {
      assert (a + b)[0] == a[0];
      assert (a + b)[1..] == a[1..] + b;
      ExtractAppend(a[1..], b);
      var x := ExtractParticipant(a[0].0, a[0].1);
      ChainAssociative(x, Extract(a[1..]), Extract(b));
    }
  }

  lemma ChainAssociative(x: Result<Extracted, Fault>, y: Result<Extracted, Fault>, z: Result<Extracted, Fault>)
    ensures Chain(Chain(x, y), z) == Chain(x, Chain(y, z))
  {
    if x.Success? && y.Success? && z.Success? {
      assert x.value.records + y.value.records + z.value.records
          == x.value.records + (y.value.records + z.value.records);
      assert x.value.skipped + y.value.skipped + z.value.skipped
          == x.value.skipped + (y.value.skipped + z.value.skipped);
    }
  }

  /** A participant's records are its sessions in order, each the session's
      fields laid over `participant_id` and `session_timestamp`, with the
      session's fields winning a clash. */
  lemma ExtractedRecords(id: string, sessions: Members, m: Members, i: nat, k: string)
    requires Get(m, "awm") == Some(JObject(sessions))
    requires ExtractParticipant(id, JObject(m)).Success?
    requires i < |sessions| && Distinct(sessions[i].1.members)
    ensures |ExtractParticipant(id, JObject(m)).value.records| == |sessions|
    ensures var rec := ExtractParticipant(id, JObject(m)).value.records[i];
      Get(rec, k) ==
        if HasKey(sessions[i].1.members, k) then Get(sessions[i].1.members, k)
        else if k == "participant_id" then Some(JString(id))
        else if k == "session_timestamp" then Some(JString(sessions[i].0))
        else None
  {
    var rows := SessionRows(id, [], sessions);
    assert ExtractParticipant(id, JObject(m)) == Success(Extracted(rows.value, []));
    SessionRowsAt(id, [], sessions, i);
    var fields := sessions[i].1.members;
    RowField(id, sessions[i].0, [], fields, k);
    var h := Header(id, sessions[i].0, []);
    assert h == [("participant_id", JString(id)), ("session_timestamp", JString(sessions[i].0))];
    assert Get(h, k) == if k == "participant_id" then Some(JString(id))
      else if k == "session_timestamp" then Some(JString(sessions[i].0)) else None;
  }

  /** A participant that yields records is an object whose `awm` object
      supplies them, one per session. */
  lemma ParticipantRecords(id: string, v: Json)
    requires ExtractParticipant(id, v).Success? && ExtractParticipant(id, v).value.records != []
    ensures v.JObject? && Get(v.members, "awm").Some? && Get(v.members, "awm").value.JObject?
    ensures SessionRows(id, [], Get(v.members, "awm").value.members).Success?
    ensures ExtractParticipant(id, v).value.records == SessionRows(id, [], Get(v.members, "awm").value.members).value
  {
  }

  /** Every extracted record comes from one session of one participant: the
      session's fields laid over that participant's id and the session's
      timestamp. */
  lemma {:induction false} RecordOrigin(ps: Members, n: nat) returns (j: nat, i: nat)
    requires Extract(ps).Success? && n < |Extract(ps).value.records|
    ensures j < |ps| && ps[j].1.JObject?
    ensures Get(ps[j].1.members, "awm").Some? && Get(ps[j].1.members, "awm").value.JObject?
    ensures var sessions := Get(ps[j].1.members, "awm").value.members;
      && i < |sessions| && sessions[i].1.JObject?
      && Extract(ps).value.records[n] == Update(Header(ps[j].0, sessions[i].0, []), sessions[i].1.members)
  {
    var first := ExtractParticipant(ps[0].0, ps[0].1);
    var rest := Extract(ps[1..]);
    assert Extract(ps) == Chain(first, rest);
    var recs := first.value.records + rest.value.records;
    assert Extract(ps).value.records == recs;
    if n < |first.value.records| {
      var v := ps[0].1;
      ParticipantRecords(ps[0].0, v);
      var sessions := Get(v.members, "awm").value.members;
      SessionRowsAt(ps[0].0, [], sessions, n);
      assert recs[n] == first.value.records[n];
      j, i := 0, n;
    } else {
      var k := n - |first.value.records|;
      assert recs[n] == rest.value.records[k];
      var j', i' := RecordOrigin(ps[1..], k);
      assert ps[1..][j'] == ps[j' + 1];
      j, i := j' + 1, i';
    }
  }
}
