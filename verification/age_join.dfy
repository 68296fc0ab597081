/** The age join (audcog_agm_agehistogram.py, lines 96-139): a second pass
    over the participants whose id starts with `AGM`, pairing every AWM
    session with the demographics of the first `misc` entry whose age
    converts to an integer. */
module AgeJoin {
  import opened Wrappers
  import opened Text
  import opened JsonValues
  import opened PyInt
  import opened Records
  import Extraction

  /** The value a demographic column takes when its key is absent. */
  const Unknown: Json := JString("unknown")

  /** The demographic snapshot copied onto every joined record. */
  datatype Demographics = Demographics(sex: Json, computerType: Json, hearingAids: Json, headphones: Json)

  /** Lines 119-122: the `.get(key, 'unknown')` reads from one misc entry. */
  function DemographicsOf(entry: Members): Demographics {
    Demographics(
      GetOr(entry, "sex", Unknown),
      GetOr(entry, "comp", Unknown),
      GetOr(entry, "haids", Unknown),
      GetOr(entry, "headphones", Unknown))
  }

  /** Lines 110-116 for one misc entry: `int()` of its `age`, or Rejected when
      the entry is not an object or has no `age`. */
  function EntryAge(entry: Json): Conversion {
    if entry.JObject? && HasKey(entry.members, "age") then ToInt(Get(entry.members, "age").value)
    else Rejected
  }

  /** The outcome of the scan over `misc` (lines 103-123). */
  datatype AgeScan =
    | Found(age: int, demographics: Demographics, index: nat)
    | NotFound
    | Overflowed(timestamp: string)

  /** The scan over `misc` in document order: it stops at the first entry
      whose age converts (or overflows) and passes over the others. */
  function ScanAge(misc: Members): (r: AgeScan)
    ensures r.Found? ==> r.index < |misc|
  {
    if |misc| == 0 then NotFound
    else
      match EntryAge(misc[0].1)
      case Converted(n) => Found(n, DemographicsOf(misc[0].1.members), 0)
      case Overflow => Overflowed(misc[0].0)
      case Rejected =>
        match ScanAge(misc[1..])
        case Found(a, d, i) => Found(a, d, i + 1)
        case NotFound => NotFound
        case Overflowed(ts) => Overflowed(ts)
  }

  /** A found age comes from the first entry whose age is not rejected:
      that entry supplies the age and the demographics. */
  lemma {:induction false} ScanAgeFound(misc: Members)
    requires ScanAge(misc).Found?
    ensures var r := ScanAge(misc);
      && EntryAge(misc[r.index].1) == Converted(r.age)
      && r.demographics == DemographicsOf(misc[r.index].1.members)
      && forall j :: 0 <= j < r.index ==> EntryAge(misc[j].1) == Rejected
  {
    if EntryAge(misc[0].1) == Rejected {
      ScanAgeFound(misc[1..]);
      var i := ScanAge(misc[1..]).index;
      assert misc[1..][i] == misc[i + 1];
      assert forall j :: 1 <= j < i + 1 ==> misc[j] == misc[1..][j - 1];
    }
  }

  /** Nothing is found exactly when every entry's age is rejected. */
  lemma {:induction false} ScanAgeNotFound(misc: Members)
    ensures ScanAge(misc).NotFound? <==> forall j :: 0 <= j < |misc| ==> EntryAge(misc[j].1) == Rejected
  {
    if |misc| > 0 {
      ScanAgeNotFound(misc[1..]);
      assert forall j :: 1 <= j < |misc| ==> misc[j] == misc[1..][j - 1];
    }
  }

  /** An overflow is raised by the first entry whose age is not rejected,
      and names that entry's timestamp. */
  lemma {:induction false} ScanAgeOverflow(misc: Members) returns (i: nat)
    requires ScanAge(misc).Overflowed?
    ensures i < |misc| && misc[i].0 == ScanAge(misc).timestamp && EntryAge(misc[i].1) == Overflow
    ensures forall j :: 0 <= j < i ==> EntryAge(misc[j].1) == Rejected
  {
    if EntryAge(misc[0].1) == Overflow {
      i := 0;
    } else {
      var k := ScanAgeOverflow(misc[1..]);
      i := k + 1;
      assert misc[1..][k] == misc[i];
      assert forall j :: 1 <= j < i ==> misc[j] == misc[1..][j - 1];
    }
  }

  /** First match wins: once an entry supplies the age, whatever follows it
      in `misc` is never consulted. */
  lemma {:induction false} ScanAgeIgnoresLater(misc: Members, later: Members)
    requires ScanAge(misc).Found?
    ensures ScanAge(misc[..ScanAge(misc).index + 1] + later) == ScanAge(misc)
  {
    var i := ScanAge(misc).index;
    var m' := misc[..i + 1] + later;
    assert m'[0] == misc[0];
    if i > 0 {
      assert m'[1..] == misc[1..][..i] + later;
      ScanAgeIgnoresLater(misc[1..], later);
    }
  }

  /** The columns a joined record carries after `participant_id` and
      `session_timestamp` (lines 131-135). */
  function DemographicColumns(age: int, d: Demographics): Members {
    [ ("age", JInt(age)),
      ("sex", d.sex),
      ("computer_type", d.computerType),
      ("hearing_aids", d.hearingAids),
      ("headphones", d.headphones) ]
  }

  /** A value for which `'misc' in value` raises TypeError. */
  predicate IsScalar(v: Json) {
    v.JNull? || v.JBool? || v.JInt? || v.JFloat?
  }

  /** One pass of the join loop (lines 99-139) for participant `id`. Only
      the `AGM` prefix selects a participant, not the cohort pattern. The
      test `'misc' in value` is a key test on an object, an element test on a
      list and a substring test on a string; on the last two the subscript
      that follows raises, and on a scalar the test itself raises. */
  function JoinParticipant(id: string, v: Json): Result<seq<Record>, Fault> {
    if !StartsWith(id, "AGM") then Success([])
    else
      match v
      case JObject(m) => JoinObject(id, m)
      case JArray(items) =>
        if JString("misc") in items then Failure(NotSubscriptable(id)) else Success([])
      case JString(s) =>
        if Contains(s, "misc") then Failure(NotSubscriptable(id)) else Success([])
      case _ => Failure(NotIterable(id))
  }

  /** Lines 101-123 for a participant object: scan an object `misc` for the
      first usable age. */
  function JoinObject(id: string, m: Members): Result<seq<Record>, Fault> {
    match Get(m, "misc")
    case Some(JObject(misc)) =>
      (match ScanAge(misc)
       case Overflowed(ts) => Failure(AgeOverflow(id, ts))
       case NotFound => Success([])
       case Found(age, d, _) => JoinSessions(id, m, DemographicColumns(age, d)))
    case _ => Success([])
  }

  /** Lines 126-139: one record per AWM session, carrying the `extra` columns. */
  function JoinSessions(id: string, m: Members, extra: Members): Result<seq<Record>, Fault> {
    match Get(m, "awm")
    case None => Success([])
    case Some(JObject(sessions)) => SessionRows(id, extra, sessions)
    case Some(_) => Failure(AwmNotMapping(id))
  }

  /** How the join treats one participant: ids without the prefix are passed
      over, only objects yield records, a scalar value raises TypeError at
      the `in` test, and every fault names the participant. */
  lemma JoinParticipantOutcome(id: string, v: Json)
    ensures var r := JoinParticipant(id, v);
      && (!StartsWith(id, "AGM") ==> r == Success([]))
      && (r.Success? && r.value != [] ==> StartsWith(id, "AGM") && v.JObject?)
      && ((r.Failure? && r.error.NotIterable?) <==> StartsWith(id, "AGM") && IsScalar(v))
      && (r.Failure? ==>
            !r.error.DocumentNotMapping? && !r.error.AudcogNotMapping? && !r.error.UnhashableParticipantId?
            && r.error.participant == id)
  {
  }

  /** Running the join over one stretch of participants and then another:
      the first fault wins, otherwise the records are concatenated. */
  function Then(a: Result<seq<Record>, Fault>, b: Result<seq<Record>, Fault>): Result<seq<Record>, Fault> {
    match a
    case Failure(f) => Failure(f)
    case Success(x) =>
      match b
      case Failure(f) => Failure(f)
      case Success(y) => Success(x + y)
  }

  /** The whole join loop over the participants in document order. */
  function Join(ps: Members): Result<seq<Record>, Fault> {
    if |ps| == 0 then Success([])
    else Then(JoinParticipant(ps[0].0, ps[0].1), Join(ps[1..]))
  }

  /** The number of joined records a participant contributes, stated from the
      conditions alone: an `AGM` prefix, an object with an object `misc`
      holding a convertible age, and an `awm` object. */
  function JoinedSessions(id: string, v: Json): nat {
    if StartsWith(id, "AGM") && v.JObject?
      && Get(v.members, "misc").Some? && Get(v.members, "misc").value.JObject?
      && ScanAge(Get(v.members, "misc").value.members).Found?
      && Get(v.members, "awm").Some? && Get(v.members, "awm").value.JObject?
    then |Get(v.members, "awm").value.members|
    else 0
  }

  function TotalJoined(ps: Members): nat {
    if |ps| == 0 then 0 else JoinedSessions(ps[0].0, ps[0].1) + TotalJoined(ps[1..])
  }

  /** A participant contributes one record per AWM session exactly when all
      the join's conditions hold, and none otherwise. */
  lemma JoinParticipantCount(id: string, v: Json)
    ensures JoinParticipant(id, v).Success? ==> |JoinParticipant(id, v).value| == JoinedSessions(id, v)
  {
  }

  /** A successful join emits, in total, the sum over participants of their
      qualifying session counts. */
  lemma {:induction false} JoinCount(ps: Members)
    ensures Join(ps).Success? ==> |Join(ps).value| == TotalJoined(ps)
  {
    if |ps| > 0 {
      JoinParticipantCount(ps[0].0, ps[0].1);
      JoinCount(ps[1..]);
    }
  }

  /** Join over a concatenation joins each part: records keep participant
      order, and the earlier fault wins. */
  lemma {:induction false} JoinAppend(a: Members, b: Members)
    ensures Join(a + b) == Then(Join(a), Join(b))
    decreases |a|
  {
    if |a| == 0 {
      assert a + b == b;
      if Join(b).Success? {
        assert [] + Join(b).value == Join(b).value;
      }
    } else {
      assert (a + b)[0] == a[0];
      assert (a + b)[1..] == a[1..] + b;
      JoinAppend(a[1..], b);
      ThenAssociative(JoinParticipant(a[0].0, a[0].1), Join(a[1..]), Join(b));
    }
  }

  lemma ThenAssociative(x: Result<seq<Record>, Fault>, y: Result<seq<Record>, Fault>, z: Result<seq<Record>, Fault>)
    ensures Then(Then(x, y), z) == Then(x, Then(y, z))
  {
    if x.Success? && y.Success? && z.Success? {
      assert x.value + y.value + z.value == x.value + (y.value + z.value);
    }
  }

  /** Every record of a participant carries the one demographic snapshot
      found by the scan; each column is the session's own value when the
      session has that field (`record.update(awm_data)`), and the snapshot
      otherwise. */
  lemma JoinedRecord(id: string, m: Members, i: nat)
    requires JoinParticipant(id, JObject(m)).Success?
    requires i < |JoinParticipant(id, JObject(m)).value|
    ensures Get(m, "misc").Some? && Get(m, "misc").value.JObject?
    ensures Get(m, "awm").Some? && Get(m, "awm").value.JObject?
    ensures var scan := ScanAge(Get(m, "misc").value.members);
      var session := Get(m, "awm").value.members[i];
      && scan.Found?
      && session.1.JObject?
      && JoinParticipant(id, JObject(m)).value[i]
           == Update(Header(id, session.0, DemographicColumns(scan.age, scan.demographics)), session.1.members)
  {
    assert JoinParticipant(id, JObject(m)) == JoinObject(id, m);
    var scan := ScanAge(Get(m, "misc").value.members);
    var extra := DemographicColumns(scan.age, scan.demographics);
    assert JoinObject(id, m) == JoinSessions(id, m, extra);
    var sessions := Get(m, "awm").value.members;
    assert JoinSessions(id, m, extra) == SessionRows(id, extra, sessions);
    SessionRowsAt(id, extra, sessions, i);
  }

  /** The productive case of the join: a selected participant with an object
      `misc` whose scan finds an age, and an object `awm`, gets one record per
      session built from that snapshot. */
  lemma JoinParticipantFound(id: string, m: Members, misc: Members, sessions: Members)
    requires StartsWith(id, "AGM")
    requires Get(m, "misc") == Some(JObject(misc)) && ScanAge(misc).Found?
    requires Get(m, "awm") == Some(JObject(sessions))
    ensures JoinParticipant(id, JObject(m))
      == SessionRows(id, DemographicColumns(ScanAge(misc).age, ScanAge(misc).demographics), sessions)
  {
    assert JoinParticipant(id, JObject(m)) == JoinObject(id, m);
  }

  /** A participant that got through the extraction never makes the join
      fail on the shape of its `awm` sessions: the join only re-reads what
      the extraction already walked. */
  lemma JoinParticipantAfterExtraction(id: string, v: Json)
    requires Extraction.Extractable(v)
    ensures JoinParticipant(id, v).Failure? ==>
      var f := JoinParticipant(id, v).error;
      f.NotIterable? || f.NotSubscriptable? || f.AgeOverflow?
  {
    if JoinParticipant(id, v).Failure? && v.JObject? {
      var m := v.members;
      if Get(m, "awm").Some? && Get(m, "awm").value.JObject? {
        var sessions := Get(m, "awm").value.members;
        assert forall i :: 0 <= i < |sessions| ==> sessions[i].1.JObject?;
      }
    }
  }

  /** Once the whole extraction succeeded, the join can only fail at the
      `misc` test or at an overflowing age. */
  lemma {:induction false} JoinAfterExtraction(ps: Members)
    requires Extraction.Extract(ps).Success?
    ensures Join(ps).Failure? ==>
      var f := Join(ps).error;
      f.NotIterable? || f.NotSubscriptable? || f.AgeOverflow?
  {
    Extraction.ExtractSucceeds(ps);
    if |ps| > 0 {
      JoinParticipantAfterExtraction(ps[0].0, ps[0].1);
      Extraction.ExtractSucceeds(ps[1..]);
      assert forall i :: 0 <= i < |ps[1..]| ==> ps[1..][i] == ps[i + 1];
      JoinAfterExtraction(ps[1..]);
    }
  }

  /** A participant selected by the prefix whose value is a bare number
      (or boolean, or null) makes the whole join fail, wherever it stands. */
  lemma {:induction false} JoinFailsOnScalar(ps: Members, i: nat)
    requires i < |ps| && StartsWith(ps[i].0, "AGM") && IsScalar(ps[i].1)
    ensures Join(ps).Failure?
  {
    if i > 0 {
      assert ps[1..][i - 1] == ps[i];
      JoinFailsOnScalar(ps[1..], i - 1);
    }
  }

  /** The columns of a joined record: the session's fields win a clash with
      the age and demographic columns (`record.update(awm_data)`, line 138);
      otherwise the columns hold the snapshot. */
  lemma JoinedColumns(id: string, timestamp: string, age: int, d: Demographics, fields: Members)
    requires Distinct(fields)
    ensures var rec := Update(Header(id, timestamp, DemographicColumns(age, d)), fields);
      && Get(rec, "participant_id") == (if HasKey(fields, "participant_id") then Get(fields, "participant_id") else Some(JString(id)))
      && Get(rec, "session_timestamp") == (if HasKey(fields, "session_timestamp") then Get(fields, "session_timestamp") else Some(JString(timestamp)))
      && Get(rec, "age") == (if HasKey(fields, "age") then Get(fields, "age") else Some(JInt(age)))
      && Get(rec, "sex") == (if HasKey(fields, "sex") then Get(fields, "sex") else Some(d.sex))
      && Get(rec, "computer_type") == (if HasKey(fields, "computer_type") then Get(fields, "computer_type") else Some(d.computerType))
      && Get(rec, "hearing_aids") == (if HasKey(fields, "hearing_aids") then Get(fields, "hearing_aids") else Some(d.hearingAids))
      && Get(rec, "headphones") == (if HasKey(fields, "headphones") then Get(fields, "headphones") else Some(d.headphones))
  {
    var h := Header(id, timestamp, DemographicColumns(age, d));
    var names := ["participant_id", "session_timestamp", "age", "sex", "computer_type", "hearing_aids", "headphones"];
    assert |h| == 7;
    forall i | 0 <= i < 7 ensures h[i].0 == names[i] && Get(h, names[i]) == Some(h[i].1) && Get(Update(h, fields), names[i]) == (if HasKey(fields, names[i]) then Get(fields, names[i]) else Get(h, names[i])) {
      assert h[i].0 == names[i];
      GetAt(h, i);
      UpdateGet(h, fields, names[i]);
    }
    assert names[0] == "participant_id" && names[1] == "session_timestamp" && names[2] == "age";
    assert names[3] == "sex" && names[4] == "computer_type" && names[5] == "hearing_aids" && names[6] == "headphones";
  }
}
