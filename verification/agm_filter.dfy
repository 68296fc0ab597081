/** The AGM cohort filter: `is_agm_participant` and its application to the
    extracted records (audcog_agm_agehistogram.py, lines 74-80). */
module AgmFilter {
  import opened Wrappers
  import opened Text
  import opened JsonValues
  import opened Records

  /** How many ASCII digits follow `pos`, counted up to `limit`: how far the
      greedy `\d{4,6}` first reaches. */
  function DigitRun(s: string, pos: nat, limit: nat): (n: nat)
    requires pos <= |s|
    ensures n <= limit && pos + n <= |s|
    ensures forall i :: pos <= i < pos + n ==> IsDigit(s[i])
    ensures n < limit && pos + n < |s| ==> !IsDigit(s[pos + n])
    decreases limit
  {
    if limit == 0 || pos == |s| || !IsDigit(s[pos]) then 0
    else 1 + DigitRun(s, pos + 1, limit - 1)
  }

  /** Python's `$` without MULTILINE: the end of the string, or just before a
      newline that ends it. */
  predicate AtEnd(s: string, pos: nat) {
    pos == |s| || (pos + 1 == |s| && s[pos] == '\n')
  }

  /** The regex engine's backtracking after `\d{min,k}` took `k` digits:
      `$` is tried after `k` digits, then after one fewer, down to `min`. */
  predicate Backtrack(s: string, pos: nat, k: nat, min: nat)
    decreases k
  {
    AtEnd(s, pos + k) || (k > min && Backtrack(s, pos, k - 1, min))
  }

  /** `re.match(r'^AGM\d{4,6}$', id)` succeeds. */
  predicate IsAgmParticipant(id: string) {
    StartsWith(id, "AGM")
    && var run := DigitRun(id, 3, 6);
    run >= 4 && Backtrack(id, 3, run, 4)
  }

  /** The shape the pattern accepts, stated without the matcher: `AGM` and 4
      to 6 digits, optionally followed by one final newline. */
  ghost predicate AgmShape(id: string) {
    var core := if |id| > 0 && id[|id| - 1] == '\n' then id[..|id| - 1] else id;
    7 <= |core| <= 9 && StartsWith(core, "AGM") && AllDigits(core[3..])
  }

  /** Backtracking into a run of digits never helps: a digit is neither the
      end nor the final newline, so only the longest attempt can succeed. */
  lemma {:induction false} BacktrackOverDigits(s: string, pos: nat, k: nat, min: nat)
    requires pos + k <= |s| && min <= k
    requires forall i :: pos <= i < pos + k ==> IsDigit(s[i])
    ensures Backtrack(s, pos, k, min) <==> AtEnd(s, pos + k)
    decreases k
  {
    if k > min {
      BacktrackOverDigits(s, pos, k - 1, min);
      assert IsDigit(s[pos + k - 1]);
    }
  }

  /** The matcher accepts exactly the AGM shape, newline quirk included. */
  lemma AgmParticipantShape(id: string)
    ensures IsAgmParticipant(id) <==> AgmShape(id)
  {
    var core := if |id| > 0 && id[|id| - 1] == '\n' then id[..|id| - 1] else id;
    if StartsWith(id, "AGM") {
      var run := DigitRun(id, 3, 6);
      if run >= 4 {
        BacktrackOverDigits(id, 3, run, 4);
      }
      if IsAgmParticipant(id) {
        assert |core| == 3 + run;
        assert core[3..] == id[3..3 + run];
      }
      if AgmShape(id) {
        assert core[..3] == id[..3];
        var d := |core| - 3;
        assert forall i :: 3 <= i < 3 + d ==> IsDigit(id[i]) by {
          forall i | 3 <= i < 3 + d ensures IsDigit(id[i]) {
            assert id[i] == core[3..][i - 3];
          }
        }
        assert run == d;
      }
    }
  }

  /** The row-level test of line 80: `str()` of the record's participant id
      matches. A session may overwrite that column; `str()` of a number,
      boolean, null, list or object never starts with `AGM`, so only a string
      can match. */
  predicate Selected(r: Record) {
    match Get(r, "participant_id")
    case Some(JString(id)) => IsAgmParticipant(id)
    case _ => false
  }

  /** `df_clean[df_clean['participant_id'].apply(is_agm_participant)]`: the
      selected records, in their original order. */
  function FilterAgm(rs: seq<Record>): (kept: seq<Record>)
    ensures |kept| <= |rs|
    ensures forall r :: r in kept ==> r in rs && Selected(r)
    ensures forall i :: 0 <= i < |rs| && Selected(rs[i]) ==> rs[i] in kept
  {
    if |rs| == 0 then []
    else (if Selected(rs[0]) then [rs[0]] else []) + FilterAgm(rs[1..])
  }

  /** Filtering commutes with concatenation, so relative order is kept. */
  lemma {:induction false} FilterAgmAppend(a: seq<Record>, b: seq<Record>)
    ensures FilterAgm(a + b) == FilterAgm(a) + FilterAgm(b)
    decreases |a|
  {
    if |a| > 0 {
      assert (a + b)[1..] == a[1..] + b;
      FilterAgmAppend(a[1..], b);
    } else {
      assert a + b == b;
    }
  }

  /** Filtering twice keeps the same records as filtering once. */
  lemma {:induction false} FilterAgmIdempotent(rs: seq<Record>)
    ensures FilterAgm(FilterAgm(rs)) == FilterAgm(rs)
    decreases |rs|
  {
    if |rs| > 0 {
      FilterAgmIdempotent(rs[1..]);
      var head := if Selected(rs[0]) then [rs[0]] else [];
      FilterAgmAppend(head, FilterAgm(rs[1..]));
    }
  }

  /** The regex corner cases: a trailing newline passes, two digits too few or
      one too many do not, and neither does a second newline. */
  lemma AgmParticipantExamples()
    ensures IsAgmParticipant("AGM1234")
    ensures IsAgmParticipant("AGM123456")
    ensures IsAgmParticipant("AGM1234\n")
    ensures !IsAgmParticipant("AGM12")
    ensures !IsAgmParticipant("AGM1234567")
    ensures !IsAgmParticipant("AGM1234\n\n")
    ensures !IsAgmParticipant("agm1234")
  {
    AgmParticipantShape("AGM1234");
    AgmParticipantShape("AGM123456");
    AgmParticipantShape("AGM1234\n");
    AgmParticipantShape("AGM12");
    AgmParticipantShape("AGM1234567");
    AgmParticipantShape("AGM1234\n\n");
    assert "AGM1234\n"[..7] == "AGM1234";
    assert "AGM1234\n\n"[..9][3..][4] == '\n';
    assert !IsDigit('\n');
    assert "AGM1234\n"[..7][3..] == "1234";
    assert "agm1234"[..3][0] != "AGM"[0];
  }
}
