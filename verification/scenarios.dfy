/** Whole-run scenarios on small documents: a participant whose first
    demographic entry is unusable, the prefix-versus-pattern quirk of the
    join, and the abort on a bare-number participant. */
module Scenarios {
  import opened Wrappers
  import opened Text
  import opened JsonValues
  import opened PyInt
  import opened Records
  import opened AgmFilter
  import opened Extraction
  import opened AgeJoin
  import opened Pipeline

  const UnusableEntry: Members := [("age", JString("foo"))]
  const UsableEntry: Members := [("age", JString("45")), ("sex", JString("f"))]
  const Misc: Members := [("t1", JObject(UnusableEntry)), ("t2", JObject(UsableEntry))]
  const Sessions: Members := [("s1", JObject([("score", JInt(3))])), ("s2", JObject([("score", JInt(5))]))]

  /** A participant whose first `misc` entry has an unusable age and whose
      second supplies age "45" and sex "f", with two AWM sessions. */
  const TwoEntries: Json := JObject([("misc", JObject(Misc)), ("awm", JObject(Sessions))])

  /** A two-entry `misc` whose first age is rejected takes the second. */
  lemma ScanPassesOver(t1: string, first: Json, t2: string, second: Members, age: int)
    requires EntryAge(first) == Rejected && EntryAge(JObject(second)) == Converted(age)
    ensures ScanAge([(t1, first), (t2, JObject(second))]) == Found(age, DemographicsOf(second), 1)
  {
    assert [(t1, first), (t2, JObject(second))][1..] == [(t2, JObject(second))];
  }

  lemma EntryAges()
    ensures EntryAge(JObject(UnusableEntry)) == Rejected
    ensures EntryAge(JObject(UsableEntry)) == Converted(45)
  {
    assert !IsDigit('f') && !IsSpace('f') && !IsSpace('o');
    assert TrimEnd(TrimStart("foo")) == "foo";
    assert Get(UnusableEntry, "age") == Some(JString("foo"));
    assert DigitsValue("4") == 4;
    assert DigitsValue("45") == 45 by { assert "45"[..1] == "4"; }
    assert IntLiteral("45", "", "", "45", "");
    IntOfStringComplete("45", "", "", "45", "");
    assert Get(UsableEntry, "age") == Some(JString("45"));
  }

  lemma ScanTwoEntries()
    ensures ScanAge(Misc) == Found(45, Demographics(JString("f"), Unknown, Unknown, Unknown), 1)
  {
    EntryAges();
    ScanPassesOver("t1", JObject(UnusableEntry), "t2", UsableEntry, 45);
    assert Get(UsableEntry, "sex") == Some(JString("f"));
    assert Get(UsableEntry, "comp") == None;
    assert Get(UsableEntry, "haids") == None;
    assert Get(UsableEntry, "headphones") == None;
  }

  const Snapshot: Demographics := Demographics(JString("f"), Unknown, Unknown, Unknown)

  lemma JoinTwoEntries()
    ensures JoinParticipant("AGM10234", TwoEntries) == SessionRows("AGM10234", DemographicColumns(45, Snapshot), Sessions)
  {
    ScanTwoEntries();
    assert "AGM10234"[..3] == "AGM";
    assert Get(TwoEntries.members, "misc") == Some(JObject(Misc));
    assert Get(TwoEntries.members, "awm") == Some(JObject(Sessions));
    JoinParticipantFound("AGM10234", TwoEntries.members, Misc, Sessions);
  }

  /** A session holding only a `score` field leaves the header's columns
      as they were. */
  lemma ScoreRow(id: string, timestamp: string, age: int, d: Demographics, score: Json)
    ensures var rec := Update(Header(id, timestamp, DemographicColumns(age, d)), [("score", score)]);
      && Get(rec, "participant_id") == Some(JString(id))
      && Get(rec, "age") == Some(JInt(age))
      && Get(rec, "sex") == Some(d.sex)
      && Get(rec, "computer_type") == Some(d.computerType)
      && Get(rec, "hearing_aids") == Some(d.hearingAids)
      && Get(rec, "headphones") == Some(d.headphones)
  {
    JoinedColumns(id, timestamp, age, d, [("score", score)]);
  }

  /** The unusable age of `t1` is passed over; `t2` supplies the age and the
      sex, the absent columns read "unknown", and both sessions are joined
      with that one snapshot. */
  lemma FirstUsableAgeWins()
    ensures JoinParticipant("AGM10234", TwoEntries).Success?
    ensures var rows := JoinParticipant("AGM10234", TwoEntries).value;
      && |rows| == 2
      && forall i :: 0 <= i < 2 ==>
           && Get(rows[i], "age") == Some(JInt(45))
           && Get(rows[i], "sex") == Some(JString("f"))
           && Get(rows[i], "computer_type") == Some(Unknown)
           && Get(rows[i], "hearing_aids") == Some(Unknown)
           && Get(rows[i], "headphones") == Some(Unknown)
  {
    JoinTwoEntries();
    var extra := DemographicColumns(45, Snapshot);
    assert Sessions[0].1.JObject? && Sessions[1].1.JObject?;
    forall i | 0 <= i < 2
      ensures Get(SessionRows("AGM10234", extra, Sessions).value[i], "age") == Some(JInt(45))
      ensures Get(SessionRows("AGM10234", extra, Sessions).value[i], "sex") == Some(JString("f"))
      ensures Get(SessionRows("AGM10234", extra, Sessions).value[i], "computer_type") == Some(Unknown)
      ensures Get(SessionRows("AGM10234", extra, Sessions).value[i], "hearing_aids") == Some(Unknown)
      ensures Get(SessionRows("AGM10234", extra, Sessions).value[i], "headphones") == Some(Unknown)
    {
      SessionRowsAt("AGM10234", extra, Sessions, i);
      assert Sessions[i].1.members == [("score", Sessions[i].1.members[0].1)];
      ScoreRow("AGM10234", Sessions[i].0, 45, Snapshot, Sessions[i].1.members[0].1);
    }
  }

  /** A record whose session does not overwrite `participant_id` passes the
      cohort filter exactly when its participant's id matches the pattern. */
  lemma RecordSelected(id: string, timestamp: string, fields: Members)
    requires Distinct(fields) && !HasKey(fields, "participant_id")
    ensures Selected(Update(Header(id, timestamp, []), fields)) <==> IsAgmParticipant(id)
  {
    RowField(id, timestamp, [], fields, "participant_id");
    GetAt(Header(id, timestamp, []), 0);
  }

  const Document: Json := JObject([("audcog-online", JObject([("AGM10234", TwoEntries)]))])

  lemma ExtractOne(id: string, v: Json)
    ensures Extract([(id, v)]) == ExtractParticipant(id, v)
  {
    assert [(id, v)][1..] == [];
    if ExtractParticipant(id, v).Success? {
      var x := ExtractParticipant(id, v).value;
      assert x.records + [] == x.records && x.skipped + [] == x.skipped;
    }
  }

  lemma ExtractAwm(id: string, m: Members, sessions: Members)
    requires Get(m, "awm") == Some(JObject(sessions))
    requires forall i :: 0 <= i < |sessions| ==> sessions[i].1.JObject?
    ensures SessionRows(id, [], sessions).Success?
    ensures ExtractParticipant(id, JObject(m)) == Success(Extracted(SessionRows(id, [], sessions).value, []))
  {
  }

  lemma ExtractTwoEntries()
    ensures SessionRows("AGM10234", [], Sessions).Success?
    ensures Extract([("AGM10234", TwoEntries)])
      == Success(Extracted(SessionRows("AGM10234", [], Sessions).value, []))
  {
    assert Get(TwoEntries.members, "awm") == Some(JObject(Sessions));
    assert Sessions[0].1.JObject? && Sessions[1].1.JObject?;
    ExtractAwm("AGM10234", TwoEntries.members, Sessions);
    ExtractOne("AGM10234", TwoEntries);
  }

  lemma JoinOne(id: string, v: Json)
    ensures Join([(id, v)]) == JoinParticipant(id, v)
  {
    assert [(id, v)][1..] == [];
    if JoinParticipant(id, v).Success? {
      assert JoinParticipant(id, v).value + [] == JoinParticipant(id, v).value;
    }
  }

  lemma AgmIdMatches()
    ensures IsAgmParticipant("AGM10234")
  {
    AgmParticipantShape("AGM10234");
    assert "AGM10234"[3..] == "10234";
    assert "AGM10234"[..3] == "AGM";
  }

  lemma TwoEntriesSelected()
    ensures SessionRows("AGM10234", [], Sessions).Success?
    ensures Selected(SessionRows("AGM10234", [], Sessions).value[0])
  {
    assert Sessions[0].1.JObject? && Sessions[1].1.JObject?;
    AgmIdMatches();
    var fields := Sessions[0].1.members;
    assert fields == [("score", JInt(3))];
    assert Get(fields, "participant_id") == None;
    SessionRowsAt("AGM10234", [], Sessions, 0);
    RecordSelected("AGM10234", "s1", fields);
  }

  /** The whole run over a document holding only that participant ends with
      the two joined records. */
  lemma RunFirstUsableAge()
    ensures Run(Document).Joined?
    ensures var rows := Run(Document).rows;
      && |rows| == 2
      && forall i :: 0 <= i < 2 ==>
           && Get(rows[i], "age") == Some(JInt(45))
           && Get(rows[i], "sex") == Some(JString("f"))
  {
    var ps := [("AGM10234", TwoEntries)];
    assert Get(Document.members, "audcog-online") == Some(JObject(ps));
    ExtractTwoEntries();
    TwoEntriesSelected();
    FirstUsableAgeWins();
    JoinOne("AGM10234", TwoEntries);
    RunReachesJoin(Document, ps, 0);
  }

  /** A cohort member with one AWM session and no `misc` block. */
  const NoMisc: Json := JObject([("awm", JObject([("s", JObject([]))]))])
  const ShortMisc: Members := [("m", JObject([("age", JInt(30))]))]
  const ShortSessions: Members := [("s", JObject([("score", JInt(1))]))]
  /** A participant whose id has the `AGM` prefix but too few digits for the
      cohort pattern, with a usable age and one AWM session. */
  const ShortId: Json := JObject([("misc", JObject(ShortMisc)), ("awm", JObject(ShortSessions))])
  const Mixed: Members := [("AGM1234", NoMisc), ("AGM12", ShortId)]
  const MixedDocument: Json := JObject([("audcog-online", JObject(Mixed))])

  /** Extraction over two participants chains the two loop bodies. */
  lemma ExtractPair(a: string, u: Json, b: string, v: Json)
    ensures Extract([(a, u), (b, v)]) == Chain(ExtractParticipant(a, u), ExtractParticipant(b, v))
  {
    assert [(a, u), (b, v)] == [(a, u)] + [(b, v)];
    ExtractAppend([(a, u)], [(b, v)]);
    ExtractOne(a, u);
    ExtractOne(b, v);
  }

  /** The participant without `misc` yields one record, holding only the
      header, and that record passes the filter exactly when the id matches. */
  lemma NoMiscRecord(id: string)
    ensures ExtractParticipant(id, NoMisc) == Success(Extracted([Header(id, "s", [])], []))
    ensures Selected(Header(id, "s", [])) <==> IsAgmParticipant(id)
  {
    var sessions := [("s", JObject([]))];
    assert Get(NoMisc.members, "awm") == Some(JObject(sessions));
    ExtractAwm(id, NoMisc.members, sessions);
    SessionRowsAt(id, [], sessions, 0);
    var rows := SessionRows(id, [], sessions).value;
    assert rows == [rows[0]] && rows[0] == Header(id, "s", []);
    GetAt(Header(id, "s", []), 0);
  }

  lemma Agm1234Matches()
    ensures IsAgmParticipant("AGM1234")
  {
    AgmParticipantShape("AGM1234");
    assert "AGM1234"[3..] == "1234";
    assert "AGM1234"[..3] == "AGM";
  }

  lemma ExtractMixed()
    ensures Extract(Mixed).Success? && |Extract(Mixed).value.records| == 2
    ensures Selected(Extract(Mixed).value.records[0])
  {
    ExtractPair("AGM1234", NoMisc, "AGM12", ShortId);
    NoMiscRecord("AGM1234");
    Agm1234Matches();
    assert Get(ShortId.members, "awm") == Some(JObject(ShortSessions));
    ExtractAwm("AGM12", ShortId.members, ShortSessions);
  }

  /** The join over two participants chains the two loop bodies. */
  lemma JoinPair(a: string, u: Json, b: string, v: Json)
    ensures Join([(a, u), (b, v)]) == Then(JoinParticipant(a, u), JoinParticipant(b, v))
  {
    assert [(a, u), (b, v)] == [(a, u)] + [(b, v)];
    JoinAppend([(a, u)], [(b, v)]);
    JoinOne(a, u);
    JoinOne(b, v);
  }

  /** Without `misc` the join passes a selected participant over. */
  lemma NoMiscJoin(id: string)
    requires StartsWith(id, "AGM")
    ensures JoinParticipant(id, NoMisc) == Success([])
  {
    assert Get(NoMisc.members, "misc") == None;
    assert JoinParticipant(id, NoMisc) == JoinObject(id, NoMisc.members);
  }

  /** `AGM12` has a usable age 30 and one session: one joined record. */
  lemma ShortIdJoin()
    ensures JoinParticipant("AGM12", ShortId).Success?
    ensures |JoinParticipant("AGM12", ShortId).value| == 1
    ensures Get(JoinParticipant("AGM12", ShortId).value[0], "participant_id") == Some(JString("AGM12"))
  {
    assert "AGM12"[..3] == "AGM";
    assert Get(ShortMisc[0].1.members, "age") == Some(JInt(30));
    assert EntryAge(ShortMisc[0].1) == Converted(30);
    var scan := ScanAge(ShortMisc);
    assert scan.Found? && scan.age == 30;
    assert Get(ShortId.members, "misc") == Some(JObject(ShortMisc));
    assert Get(ShortId.members, "awm") == Some(JObject(ShortSessions));
    JoinParticipantFound("AGM12", ShortId.members, ShortMisc, ShortSessions);
    var extra := DemographicColumns(30, scan.demographics);
    SessionRowsAt("AGM12", extra, ShortSessions, 0);
    ScoreRow("AGM12", "s", 30, scan.demographics, JInt(1));
  }

  lemma JoinMixed()
    ensures Join(Mixed).Success? && |Join(Mixed).value| == 1
    ensures Get(Join(Mixed).value[0], "participant_id") == Some(JString("AGM12"))
  {
    JoinPair("AGM1234", NoMisc, "AGM12", ShortId);
    assert "AGM1234"[..3] == "AGM";
    NoMiscJoin("AGM1234");
    ShortIdJoin();
    var rows := JoinParticipant("AGM12", ShortId).value;
    assert [] + rows == rows;
  }

  /** The join selects on the `AGM` prefix, not on the cohort pattern: once a
      cohort member lets the run past the filter, `AGM12` reaches the joined
      table although the pattern rejects it. */
  lemma RunJoinsPrefixOnly()
    ensures !IsAgmParticipant("AGM12") && StartsWith("AGM12", "AGM")
    ensures Run(MixedDocument).Joined?
    ensures |Run(MixedDocument).rows| == 1
    ensures Get(Run(MixedDocument).rows[0], "participant_id") == Some(JString("AGM12"))
  {
    AgmParticipantExamples();
    assert "AGM12"[..3] == "AGM";
    assert Get(MixedDocument.members, "audcog-online") == Some(JObject(Mixed));
    ExtractMixed();
    JoinMixed();
    RunReachesJoin(MixedDocument, Mixed, 0);
  }

  const Bare: Members := [("AGM1234", NoMisc), ("AGM5", JInt(3))]
  const BareDocument: Json := JObject([("audcog-online", JObject(Bare))])

  lemma ExtractBare()
    ensures Extract(Bare).Success? && |Extract(Bare).value.records| == 1
    ensures Selected(Extract(Bare).value.records[0])
    ensures Extract(Bare).value.skipped == [Skip("AGM5", NotAMapping(JInt(3)))]
  {
    ExtractPair("AGM1234", NoMisc, "AGM5", JInt(3));
    NoMiscRecord("AGM1234");
    Agm1234Matches();
  }

  /** A bare-number participant is only skipped by the extraction, but the
      join's `'misc' in 3` raises, and the run ends in the generic handler. */
  lemma RunAbortsOnBareNumber()
    ensures Run(BareDocument) == Aborted(NotIterable("AGM5"))
  {
    assert Get(BareDocument.members, "audcog-online") == Some(JObject(Bare));
    ExtractBare();
    JoinPair("AGM1234", NoMisc, "AGM5", JInt(3));
    assert "AGM1234"[..3] == "AGM" && "AGM5"[..3] == "AGM";
    NoMiscJoin("AGM1234");
    RunJoinFault(BareDocument, Bare, 0);
  }

  /** A participant outside the cohort whose only session overwrites
      `participant_id` with an empty list. */
  const ListId: Json := JObject([("awm", JObject([("s", JObject([("participant_id", JArray([]))]))]))])
  const ListIdDocument: Json := JObject([("audcog-online", JObject([("X1", ListId)]))])

  /** No record passes the filter, and previewing the ids on line 233 makes
      pandas hash the list, which raises: the run ends in the handler. */
  lemma RunAbortsOnListId()
    ensures Run(ListIdDocument) == Aborted(UnhashableParticipantId)
  {
    var fields := [("participant_id", JArray([]))];
    var sessions := [("s", JObject(fields))];
    assert Get(ListId.members, "awm") == Some(JObject(sessions));
    ExtractAwm("X1", ListId.members, sessions);
    ExtractOne("X1", ListId);
    SessionRowsAt("X1", [], sessions, 0);
    var rows := SessionRows("X1", [], sessions).value;
    assert rows == [rows[0]];
    UpdateGet(Header("X1", "s", []), fields, "participant_id");
    assert Get(fields, "participant_id") == Some(JArray([]));
    assert !Selected(rows[0]) && !HashableId(rows[0]);
    assert FilterAgm(rows) == [];
    assert Get(ListIdDocument.members, "audcog-online") == Some(JObject([("X1", ListId)]));
    RunAbortsOnUnhashableId(ListIdDocument, [("X1", ListId)], 0);
  }
}
