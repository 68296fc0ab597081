/** The driver of audcog_agm_agehistogram.py (lines 17-245) up to the joined
    table: the three gates that end a run early, and the generic handler
    that turns an escaping exception into a failed run. */
module Pipeline {
  import opened Wrappers
  import opened Text
  import opened JsonValues
  import opened Records
  import opened AgmFilter
  import opened Extraction
  import opened AgeJoin

  /** How a run ends. */
  datatype Outcome =
      /** An exception reached the generic handler (lines 242-245): no export. */
    | Aborted(fault: Fault)
      /** The document has no `audcog-online` key (lines 236-238). */
    | NoAudcogOnline
      /** No participant yielded an AWM record (lines 234-235). */
    | NoAwmRecords(skipped: seq<Skip>)
      /** AWM records exist but none passes the cohort filter (lines 230-233),
          and the preview of their ids could be printed. */
    | NoAgmParticipants(records: seq<Record>)
      /** The join produced no record (lines 226-228). */
    | NoAgeRecords
      /** The joined table that the statistics and the export are computed from. */
    | Joined(rows: seq<Record>)

  /** A record whose `participant_id` pandas can hash: anything but a list or
      an object. The preview on line 233 raises TypeError otherwise. */
  predicate HashableId(r: Record) {
    match Get(r, "participant_id")
    case Some(JArray(_)) => false
    case Some(JObject(_)) => false
    case _ => true
  }

  /** One run of the script over the parsed document `data`. */
  function Run(data: Json): Outcome {
    match data
    case JObject(top) =>
      (match Get(top, "audcog-online")
       case None => NoAudcogOnline
       case Some(JObject(ps)) => RunParticipants(ps)
       case Some(_) => Aborted(AudcogNotMapping))
    case _ => Aborted(DocumentNotMapping)
  }

  /** Lines 35-139 over the participants of `audcog-online`: extraction,
      the two emptiness gates, then the join and its gate. */
  function RunParticipants(ps: Members): Outcome {
    match Extract(ps)
    case Failure(f) => Aborted(f)
    case Success(e) =>
      if e.records == [] then NoAwmRecords(e.skipped)
      else if FilterAgm(e.records) == [] then
        if forall i :: 0 <= i < |e.records| ==> HashableId(e.records[i]) then NoAgmParticipants(e.records)
        else Aborted(UnhashableParticipantId)
      else
        match Join(ps)
        case Failure(f) => Aborted(f)
        case Success(rows) => if rows == [] then NoAgeRecords else Joined(rows)
  }

  /** A joined table exists only past every gate: the document has an
      `audcog-online` object, its extraction raised nothing, some extracted
      record passed the cohort filter, and the table holds one row per
      qualifying AWM session. */
  lemma RunJoined(data: Json)
    requires Run(data).Joined?
    ensures data.JObject? && Get(data.members, "audcog-online").Some?
    ensures Get(data.members, "audcog-online").value.JObject?
    ensures var ps := Get(data.members, "audcog-online").value.members;
      && Extract(ps).Success?
      && (exists i :: 0 <= i < |Extract(ps).value.records| && Selected(Extract(ps).value.records[i]))
      && 0 < |Run(data).rows| == TotalJoined(ps)
  {
    var ps := Get(data.members, "audcog-online").value.members;
    assert Run(data) == RunParticipants(ps);
    var recs := Extract(ps).value.records;
    assert FilterAgm(recs)[0] in FilterAgm(recs);
    JoinCount(ps);
  }

  /** The run reports that no AWM record exists only when the participants
      hold no AWM session at all. */
  lemma RunNoAwmRecords(data: Json)
    requires Run(data).NoAwmRecords?
    ensures data.JObject? && Get(data.members, "audcog-online").Some?
    ensures Get(data.members, "audcog-online").value.JObject?
    ensures TotalSessions(Get(data.members, "audcog-online").value.members) == 0
  {
    var ps := Get(data.members, "audcog-online").value.members;
    assert Run(data) == RunParticipants(ps);
    ExtractCounts(ps);
  }

  /** The run reports that no record passed the cohort filter only when the
      extraction succeeded with some records, none of them is selected, and
      every one of their ids can be previewed. */
  lemma RunNoAgmParticipants(data: Json)
    requires Run(data).NoAgmParticipants?
    ensures data.JObject? && Get(data.members, "audcog-online").Some?
    ensures Get(data.members, "audcog-online").value.JObject?
    ensures var ps := Get(data.members, "audcog-online").value.members;
      && Extract(ps).Success?
      && Run(data).records == Extract(ps).value.records != []
      && forall i :: 0 <= i < |Run(data).records| ==>
           !Selected(Run(data).records[i]) && HashableId(Run(data).records[i])
  {
    var ps := Get(data.members, "audcog-online").value.members;
    assert Run(data) == RunParticipants(ps);
    var recs := Extract(ps).value.records;
    assert FilterAgm(recs) == [];
  }

  /** When no record passes the filter, a record whose `participant_id` was
      overwritten with a list or an object makes the id preview raise, and
      the run ends in the generic handler. */
  lemma RunAbortsOnUnhashableId(data: Json, ps: Members, i: nat)
    requires data.JObject? && Get(data.members, "audcog-online") == Some(JObject(ps))
    requires Extract(ps).Success? && FilterAgm(Extract(ps).value.records) == []
    requires i < |Extract(ps).value.records| && !HashableId(Extract(ps).value.records[i])
    ensures Run(data) == Aborted(UnhashableParticipantId)
  {
    assert Run(data) == RunParticipants(ps);
  }

  /** A record that passes the cohort filter belongs to a participant the
      join selects by its `AGM` prefix, unless its session wrote its own
      `participant_id` over the header's. */
  lemma SelectedRecordOrigin(ps: Members, r: Record) returns (j: nat, i: nat)
    requires Extract(ps).Success? && r in FilterAgm(Extract(ps).value.records)
    ensures j < |ps| && ps[j].1.JObject?
    ensures Get(ps[j].1.members, "awm").Some? && Get(ps[j].1.members, "awm").value.JObject?
    ensures var sessions := Get(ps[j].1.members, "awm").value.members;
      && i < |sessions| && sessions[i].1.JObject?
      && r == Update(Header(ps[j].0, sessions[i].0, []), sessions[i].1.members)
      && (StartsWith(ps[j].0, "AGM") || HasKey(sessions[i].1.members, "participant_id"))
  {
    var recs := Extract(ps).value.records;
    var n :| 0 <= n < |recs| && recs[n] == r;
    j, i := RecordOrigin(ps, n);
    var sessions := Get(ps[j].1.members, "awm").value.members;
    var fields := sessions[i].1.members;
    if !HasKey(fields, "participant_id") {
      var h := Header(ps[j].0, sessions[i].0, []);
      UpdateGetAbsent(h, fields, "participant_id");
      GetAt(h, 0);
    }
  }

  /** A run that gets past all three gates ends in the generic handler as
      soon as any `AGM`-prefixed participant's value is a bare number. */
  lemma RunAbortsOnScalar(data: Json, i: nat)
    requires data.JObject? && Get(data.members, "audcog-online").Some?
    requires Get(data.members, "audcog-online").value.JObject?
    requires var ps := Get(data.members, "audcog-online").value.members;
      && Extract(ps).Success?
      && FilterAgm(Extract(ps).value.records) != []
      && i < |ps| && StartsWith(ps[i].0, "AGM") && IsScalar(ps[i].1)
    ensures Run(data).Aborted?
  {
    var ps := Get(data.members, "audcog-online").value.members;
    assert Run(data) == RunParticipants(ps);
    JoinFailsOnScalar(ps, i);
  }

  /** A failed run blames the shape of an `awm` block only when the
      extraction itself raised: the join never meets such a block first. */
  lemma RunAwmFaultsComeFromExtraction(data: Json)
    requires Run(data).Aborted?
    requires Run(data).fault.AwmNotMapping? || Run(data).fault.SessionNotMapping?
    ensures data.JObject? && Get(data.members, "audcog-online").Some?
    ensures Get(data.members, "audcog-online").value.JObject?
    ensures Extract(Get(data.members, "audcog-online").value.members) == Failure(Run(data).fault)
  {
    var ps := Get(data.members, "audcog-online").value.members;
    assert Run(data) == RunParticipants(ps);
    if Extract(ps).Success? {
      var recs := Extract(ps).value.records;
      assert recs != [] && FilterAgm(recs) != [];
      assert Join(ps).Failure? && Run(data).fault == Join(ps).error;
      JoinAfterExtraction(ps);
    }
  }

  /** The converse of the gating: a document whose `audcog-online` object
      extracts without a fault, has a record that passes the cohort filter,
      and joins to a non-empty table ends the run with exactly that table. */
  lemma RunReachesJoin(data: Json, ps: Members, i: nat)
    requires data.JObject? && Get(data.members, "audcog-online") == Some(JObject(ps))
    requires Extract(ps).Success?
    requires i < |Extract(ps).value.records| && Selected(Extract(ps).value.records[i])
    requires Join(ps).Success? && Join(ps).value != []
    ensures Run(data) == Joined(Join(ps).value)
  {
    assert Run(data) == RunParticipants(ps);
    assert Extract(ps).value.records[i] in FilterAgm(Extract(ps).value.records);
  }

  /** Past the three gates, a fault of the join is the run's fault. */
  lemma RunJoinFault(data: Json, ps: Members, i: nat)
    requires data.JObject? && Get(data.members, "audcog-online") == Some(JObject(ps))
    requires Extract(ps).Success?
    requires i < |Extract(ps).value.records| && Selected(Extract(ps).value.records[i])
    requires Join(ps).Failure?
    ensures Run(data) == Aborted(Join(ps).error)
  {
    assert Run(data) == RunParticipants(ps);
    assert Extract(ps).value.records[i] in FilterAgm(Extract(ps).value.records);
  }
}
