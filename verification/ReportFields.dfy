/** What a verdict is read from: the fields of the report itself, and the
    provenance stamped into it. */
module ReportFields {
  import opened Prelude
  import opened JsonValue
  import opened Verdict

  // ---- The verdict a report carries ----

  /** The object holds this whole number under that key. */
  ghost predicate HoldsInt(j: Json, key: string, n: int) {
    Holds(j, key, Num(Int(n)))
  }

  /** The report says that the head changes nothing. */
  ghost predicate NothingChanged(report: Json) {
    && Holds(report, "result", Str("no-changes")) && HoldsInt(report, "score", 100)
    && HoldsInt(report, "changed_count", 0) && HoldsInt(report, "caps_applied", 0)
    && HoldsInt(report, "hard_findings", 0) && Lacks(report, "decision") && Lacks(report, "host_error")
  }

  /** The numbers of a verdict. */
  datatype Numbers = Numbers(score: int, hard: int, minimum: int, caps: seq<string>)
  {
    predicate InRange() {
      0 <= score <= 100 && 0 <= minimum <= 100 && 0 <= hard < 0x1_0000_0000
    }

    predicate Clear() {
      score >= minimum && score >= 85 && hard == 0 && caps == []
    }
  }

  predicate ListsCaps(j: Json, caps: seq<string>) {
    j.Arr? && |j.items| == |caps| && forall i :: 0 <= i < |caps| ==> j.items[i] == Str(caps[i])
  }

  /** `decision` and `listed` hold the rest of the verdict. */
  ghost predicate SaysIn(report: Json, n: Numbers, decision: Json, listed: Json) {
    && n.InRange() && HoldsInt(report, "score", n.score)
    && Holds(report, "decision", decision)
    && HoldsInt(decision, "hard_findings", n.hard) && HoldsInt(decision, "minimum_score", n.minimum)
    && Holds(report, "caps_applied", listed) && ListsCaps(listed, n.caps)
  }

  /** The report carries this verdict. */
  ghost predicate Says(report: Json, n: Numbers) {
    exists decision, listed :: SaysIn(report, n, decision, listed)
  }

  /** The report alone is reason to pass. */
  ghost predicate Clears(report: Json) {
    NothingChanged(report) || exists n :: Says(report, n) && n.Clear()
  }

  lemma NoChangesExactly(report: Json)
    ensures IsNoChanges(report) <==> NothingChanged(report)
  {
    GetExactly(report, "result", Str("no-changes"));
    GetExactly(report, "score", Num(Int(100)));
    GetExactly(report, "changed_count", Num(Int(0)));
    GetExactly(report, "caps_applied", Num(Int(0)));
    GetExactly(report, "hard_findings", Num(Int(0)));
    GetExactly(report, "decision", Null);
    GetExactly(report, "host_error", Null);
  }

  lemma IntExactly(j: Json, key: string, n: int)
    ensures HoldsInt(j, key, n) <==> Get(j, key) == Some(Num(Int(n)))
  {
    GetExactly(j, key, Num(Int(n)));
  }

  lemma CapsExactly(j: Json, caps: seq<string>)
    ensures ListsCaps(j, caps) <==> AsStrings(Some(j)) == Some(caps)
  {
    if ListsCaps(j, caps) {
      assert AsStrings(Some(j)).value == caps;
    }
  }

  /** What a report says is what the forge reads from it. */
  lemma ReadsWhatIsSaid(report: Json, n: Numbers)
    requires !NothingChanged(report)
    ensures Says(report, n) <==>
            n.InRange() && Parse(Some(report), 0) == Some(Parsed(n.score, n.hard, n.minimum, n.caps))
  {
    NoChangesExactly(report);
    if n.InRange() && Parse(Some(report), 0) == Some(Parsed(n.score, n.hard, n.minimum, n.caps)) {
      var decision, listed := Get(report, "decision").value, Get(report, "caps_applied").value;
      Exactly(report, n, decision, listed);
    }
    if decision, listed :| SaysIn(report, n, decision, listed) {
      Exactly(report, n, decision, listed);
    }
  }

  lemma Exactly(report: Json, n: Numbers, decision: Json, listed: Json)
    ensures SaysIn(report, n, decision, listed) <==>
            && n.InRange() && Get(report, "score") == Some(Num(Int(n.score)))
            && Get(report, "decision") == Some(decision) && Get(decision, "hard_findings") == Some(Num(Int(n.hard)))
            && Get(decision, "minimum_score") == Some(Num(Int(n.minimum)))
            && Get(report, "caps_applied") == Some(listed) && AsStrings(Some(listed)) == Some(n.caps)
  {
    IntExactly(report, "score", n.score);
    GetExactly(report, "decision", decision);
    IntExactly(decision, "hard_findings", n.hard);
    IntExactly(decision, "minimum_score", n.minimum);
    GetExactly(report, "caps_applied", listed);
    CapsExactly(listed, n.caps);
  }

  lemma ParsedInRange(report: Json)
    requires !NothingChanged(report) && Parse(Some(report), 0).Some?
    ensures
      var p := Parse(Some(report), 0).value;
      Says(report, Numbers(p.score, p.hardFindings, p.minimum, p.caps))
  {
    NoChangesExactly(report);
    var p := Parse(Some(report), 0).value;
    ReadsWhatIsSaid(report, Numbers(p.score, p.hardFindings, p.minimum, p.caps));
  }

  /** The row that keeps these numbers. */
  predicate KeepsNumbers(request: Request, score: int, hard: int, caps: seq<string>) {
    && request.decision == "scored" && request.score == Some(score) && request.hardFindings == Some(hard)
    && request.caps == caps && request.toolExit == None
  }

  /** The report has nothing a verdict could be read from. */
  ghost predicate SaysNothing(report: Json) {
    && report.Obj? && Lacks(report, "host_error") && Lacks(report, "score")
    && forall decision :: Holds(report, "decision", decision) ==>
         Lacks(decision, "minimum_score") && Lacks(decision, "hard_findings")
  }

  /** The row of a report no verdict is read from. */
  ghost predicate KeepsNone(request: Request, report: Option<Json>, exit: int) {
    && request.score.None? && request.hardFindings.None? && request.caps == [] && request.toolExit == Some(exit)
    && (request.decision == "no-base-diff" || request.decision == "tool-failed")
    && (request.decision == "no-base-diff" <==> exit == 0 && report.Some? && SaysNothing(report.value))
  }

  lemma VerdictlessExactly(report: Json)
    ensures IsVerdictless(Some(report), 0) <==> SaysNothing(report)
  {
    GetExactly(report, "host_error", Null);
    GetExactly(report, "score", Null);
    forall decision
      ensures Holds(report, "decision", decision) <==> Get(report, "decision") == Some(decision)
      ensures Lacks(decision, "minimum_score") <==> Get(decision, "minimum_score").None?
      ensures Lacks(decision, "hard_findings") <==> Get(decision, "hard_findings").None?
    {
      GetExactly(report, "decision", decision);
      GetExactly(decision, "minimum_score", Null);
      GetExactly(decision, "hard_findings", Null);
    }
  }

  /** Main result: the row and the pass flag of any report, by the fields it holds. */
  lemma JudgedByItsFields(branch: string, commit: string, report: Option<Json>, exit: int)
    ensures
      var (request, pass) := Judge(branch, commit, report, exit);
      && request.branch == branch && request.commit == commit && request.report == report
      && (pass <==> exit == 0 && report.Some? && Clears(report.value))
      && (exit == 0 && report.Some? && NothingChanged(report.value) ==> KeepsNumbers(request, 100, 0, []))
      && (forall n :: exit == 0 && report.Some? && Says(report.value, n) ==>
            KeepsNumbers(request, n.score, n.hard, n.caps))
      && (exit != 0 || report.None? || (!NothingChanged(report.value) && forall n :: !Says(report.value, n)) ==>
            KeepsNone(request, report, exit))
  {
    if exit == 0 && report.Some? {
      NoChangesExactly(report.value);
      VerdictlessExactly(report.value);
      if NothingChanged(report.value) {
        SaysNoMore(report.value);
      } else {
        JudgedVerdict(branch, commit, report.value);
      }
    }
  }

  /** A report that nothing changed carries no verdict of its own. */
  lemma SaysNoMore(report: Json)
    requires NothingChanged(report)
    ensures forall n :: !Says(report, n)
  {
    forall n ensures !Says(report, n) {
      if decision, listed :| SaysIn(report, n, decision, listed) {
        GetExactly(report, "decision", decision);
      }
    }
  }

  lemma JudgedVerdict(branch: string, commit: string, report: Json)
    requires !NothingChanged(report)
    ensures
      var (request, pass) := Judge(branch, commit, Some(report), 0);
      && (pass <==> exists n :: Says(report, n) && n.Clear())
      && (forall n :: Says(report, n) ==> KeepsNumbers(request, n.score, n.hard, n.caps))
      && (request.decision == "scored" ==> exists n :: Says(report, n))
  {
    forall n ensures Says(report, n) ==> Parse(Some(report), 0) == Some(Parsed(n.score, n.hard, n.minimum, n.caps)) {
      ReadsWhatIsSaid(report, n);
    }
    if Parse(Some(report), 0).Some? {
      ParsedInRange(report);
    }
  }

  // ---- The stamp ----

  /** The report carries a stamp with these five fields. */
  ghost predicate StampedBy(report: Json, p: Provenance) {
    exists stamp :: Holds(report, "jeryu_audit_provenance", stamp) && StampSays(stamp, p)
  }

  ghost predicate StampSays(stamp: Json, p: Provenance) {
    && Holds(stamp, "runner_id", Str(p.runner)) && Holds(stamp, "base_sha", Str(p.base))
    && Holds(stamp, "audit_mode", Str(p.mode)) && Holds(stamp, "jankurai_version", Str(p.version))
    && Holds(stamp, "jankurai_sha256", Str(p.sha256))
  }

  predicate IsHex(c: char) {
    c in "0123456789abcdefABCDEF"
  }

  /** The governed auditor, a named runner, a full object id, one of two modes. */
  predicate Vouched(p: Provenance, governed: Governed) {
    && (exists i :: 0 <= i < |p.runner| && !IsWhitespace(p.runner[i]))
    && |p.base| == 40 && (forall i :: 0 <= i < 40 ==> IsHex(p.base[i]))
    && (p.mode == "diff" || p.mode == "full") && governed(p.version, p.sha256)
  }

  lemma AcceptableExactly(p: Provenance, governed: Governed)
    ensures p.Acceptable(governed) <==> Vouched(p, governed)
  {
    forall c: char ensures IsHexDigit(c) <==> IsHex(c) {
      HexExactly(c);
    }
  }

  lemma HexExactly(c: char)
    ensures IsHexDigit(c) <==> IsHex(c)
  {
    var all := "0123456789abcdefABCDEF";
    if '0' <= c <= '9' {
      assert all[c as int - 48] == c;
    } else if 'a' <= c <= 'f' {
      assert all[c as int - 87] == c;
    } else if 'A' <= c <= 'F' {
      assert all[c as int - 49] == c;
    }
  }

  lemma StrExactly(j: Json, key: string, s: string)
    ensures Holds(j, key, Str(s)) <==> AsStr(Get(j, key)) == Some(s)
  {
    GetExactly(j, key, Str(s));
  }

  /** The base a row was audited against, by the stamp in its report. */
  lemma BaseExactly(row: Score, base: string)
    ensures AuditedBase(row) == Some(base) <==>
            row.report.Some? && exists stamp ::
              Holds(row.report.value, "jeryu_audit_provenance", stamp) && Holds(stamp, "base_sha", Str(base))
  {
    if row.report.Some? {
      forall stamp
        ensures Holds(row.report.value, "jeryu_audit_provenance", stamp) <==>
                Get(row.report.value, "jeryu_audit_provenance") == Some(stamp)
        ensures Holds(stamp, "base_sha", Str(base)) <==> AsStr(Get(stamp, "base_sha")) == Some(base)
      {
        GetExactly(row.report.value, "jeryu_audit_provenance", stamp);
        StrExactly(stamp, "base_sha", base);
      }
    }
  }

  lemma StampExactly(report: Json, p: Provenance)
    ensures StampedBy(report, p) <==>
            && ProvenanceField(Some(report), "runner_id") == Some(p.runner)
            && ProvenanceField(Some(report), "base_sha") == Some(p.base)
            && ProvenanceField(Some(report), "audit_mode") == Some(p.mode)
            && ProvenanceField(Some(report), "jankurai_version") == Some(p.version)
            && ProvenanceField(Some(report), "jankurai_sha256") == Some(p.sha256)
  {
    forall stamp
      ensures Holds(report, "jeryu_audit_provenance", stamp) <==>
              Get(report, "jeryu_audit_provenance") == Some(stamp)
    {
      GetExactly(report, "jeryu_audit_provenance", stamp);
    }
    if Get(report, "jeryu_audit_provenance").Some? {
      StampFields(Get(report, "jeryu_audit_provenance").value, p);
    }
  }

  lemma StampFields(stamp: Json, p: Provenance)
    ensures StampSays(stamp, p) <==>
            && AsStr(Get(stamp, "runner_id")) == Some(p.runner) && AsStr(Get(stamp, "base_sha")) == Some(p.base)
            && AsStr(Get(stamp, "audit_mode")) == Some(p.mode)
            && AsStr(Get(stamp, "jankurai_version")) == Some(p.version)
            && AsStr(Get(stamp, "jankurai_sha256")) == Some(p.sha256)
  {
    StrExactly(stamp, "runner_id", p.runner);
    StrExactly(stamp, "base_sha", p.base);
    StrExactly(stamp, "audit_mode", p.mode);
    StrExactly(stamp, "jankurai_version", p.version);
    StrExactly(stamp, "jankurai_sha256", p.sha256);
  }

  /** The report is stamped by a governed audit. */
  ghost predicate Governing(report: Json, governed: Governed) {
    exists p :: StampedBy(report, p) && Vouched(p, governed)
  }

  lemma GoverningExactly(report: Json, governed: Governed)
    ensures HasAcceptableProvenance(Some(report), governed) <==> Governing(report, governed)
  {
    forall p
      ensures StampedBy(report, p) ==>
              (HasAcceptableProvenance(Some(report), governed) <==> Vouched(p, governed))
    {
      if StampedBy(report, p) {
        StampExactly(report, p);
        AcceptableExactly(p.(receipt := None), governed);
      }
    }
    if HasAcceptableProvenance(Some(report), governed) {
      var p := Provenance(
        ProvenanceField(Some(report), "runner_id").value, ProvenanceField(Some(report), "base_sha").value,
        ProvenanceField(Some(report), "audit_mode").value, ProvenanceField(Some(report), "jankurai_version").value,
        ProvenanceField(Some(report), "jankurai_sha256").value, None);
      StampExactly(report, p);
    }
  }

  // ---- What may be recovered ----

  /** The row keeps what its own report says. */
  ghost predicate KeepsItsReport(row: Score, report: Json) {
    || (NothingChanged(report) && row.score == Some(100) && row.hardFindings == 0 && row.caps == [])
    || exists n :: Says(report, n) && row.score == Some(n.score) && row.hardFindings == n.hard && row.caps == n.caps
  }

  /** Main result: a stored row gives a verdict back if and only if it was scored,
      its report is stamped by a governed audit, and it keeps what the report
      says; the verdict is then what the report clears. */
  lemma RecoversExactlyWhen(row: Score, governed: Governed)
    ensures
      var back := StoredProof(row, governed);
      && (back.Some? <==>
            && row.decision == "scored" && row.report.Some? && Governing(row.report.value, governed)
            && KeepsItsReport(row, row.report.value))
      && (back.Some? ==>
            back.value == (Request(row.branch, row.commit, row.score, Some(row.hardFindings), "scored", row.caps,
                                   row.report, None), Clears(row.report.value)))
  {
    if row.report.Some? {
      GoverningExactly(row.report.value, governed);
      JudgedByItsFields(row.branch, row.commit, row.report, 0);
      KeepsExactly(row, row.report.value);
    }
  }

  lemma KeepsExactly(row: Score, report: Json)
    ensures
      var request := Judge(row.branch, row.commit, Some(report), 0).0;
      KeepsItsReport(row, report) <==>
      && request.decision == "scored" && request.score == row.score
      && request.hardFindings == Some(row.hardFindings) && request.caps == row.caps
  {
    JudgedByItsFields(row.branch, row.commit, Some(report), 0);
    if !NothingChanged(report) {
      JudgedVerdict(row.branch, row.commit, report);
    } else {
      SaysNoMore(report);
    }
  }

  // ---- What the ingest stamps ----

  lemma StampKeepsField(report: Json, p: Provenance, key: string, v: Json)
    requires report.Obj? && key != "jeryu_audit_provenance"
    ensures
      var stamped := Stamped(Some(report), p).value;
      && (Holds(stamped, key, v) <==> Holds(report, key, v))
      && (Lacks(stamped, key) <==> Lacks(report, key))
  {
    var stamped := Stamped(Some(report), p).value;
    LookupInserted(report.members, PROVENANCE, p.Encode(), key);
    GetExactly(stamped, key, v);
    GetExactly(report, key, v);
  }

  /** The two hold the same under that key. */
  ghost predicate SameUnder(a: Json, b: Json, key: string) {
    (Lacks(a, key) <==> Lacks(b, key)) && forall v :: Holds(a, key, v) <==> Holds(b, key, v)
  }

  lemma StampKeeps(report: Json, p: Provenance, key: string)
    requires report.Obj? && key != "jeryu_audit_provenance"
    ensures SameUnder(Stamped(Some(report), p).value, report, key)
  {
    StampKeepsField(report, p, key, Null);
    forall v ensures Holds(Stamped(Some(report), p).value, key, v) <==> Holds(report, key, v) {
      StampKeepsField(report, p, key, v);
    }
  }

  lemma SameVerdict(a: Json, b: Json, n: Numbers)
    requires SameUnder(a, b, "score") && SameUnder(a, b, "decision") && SameUnder(a, b, "caps_applied")
    ensures Says(a, n) <==> Says(b, n)
  {
    forall decision, listed ensures SaysIn(a, n, decision, listed) <==> SaysIn(b, n, decision, listed) {
    }
  }

  lemma SameNoChanges(a: Json, b: Json)
    requires SameUnder(a, b, "result") && SameUnder(a, b, "score") && SameUnder(a, b, "changed_count")
    requires SameUnder(a, b, "caps_applied") && SameUnder(a, b, "hard_findings") && SameUnder(a, b, "decision")
    requires SameUnder(a, b, "host_error")
    ensures NothingChanged(a) <==> NothingChanged(b)
  {
  }

  /** The stamp names the receipt, or says that there is none. */
  ghost predicate NamesReceipt(report: Json, receipt: Option<string>) {
    exists stamp :: Holds(report, "jeryu_audit_provenance", stamp)
      && Holds(stamp, "jankurai_receipt_sha256", if receipt.Some? then Str(receipt.value) else Null)
  }

  lemma StampNamesReceipt(report: Json, p: Provenance)
    requires report.Obj?
    ensures NamesReceipt(Stamped(Some(report), p).value, p.receipt)
  {
    var stamped, stamp := Stamped(Some(report), p).value, p.Encode();
    LookupInserted(report.members, PROVENANCE, stamp, PROVENANCE);
    GetExactly(stamped, "jeryu_audit_provenance", stamp);
    assert At(stamp.members, "jankurai_receipt_sha256", stamp.members[5].value, 5);
  }

  /** Main result: the stamp replaces whatever stamp the report came with, and
      changes nothing that a verdict is read from. */
  lemma StampDecidesNothing(report: Json, p: Provenance)
    requires report.Obj?
    ensures
      var stamped := Stamped(Some(report), p).value;
      && StampedBy(stamped, p) && NamesReceipt(stamped, p.receipt)
      && (NothingChanged(stamped) <==> NothingChanged(report))
      && (forall n :: Says(stamped, n) <==> Says(report, n))
      && (Clears(stamped) <==> Clears(report))
  {
    var stamped := Stamped(Some(report), p).value;
    StampReads(report, p);
    StampExactly(stamped, p);
    StampNamesReceipt(report, p);
    StampKeeps(report, p, "result");
    StampKeeps(report, p, "score");
    StampKeeps(report, p, "changed_count");
    StampKeeps(report, p, "caps_applied");
    StampKeeps(report, p, "hard_findings");
    StampKeeps(report, p, "decision");
    StampKeeps(report, p, "host_error");
    SameNoChanges(stamped, report);
    forall n ensures Says(stamped, n) <==> Says(report, n) {
      SameVerdict(stamped, report, n);
    }
  }
}
