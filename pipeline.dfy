/** app.py's `process_and_display`: a table from any extractor normalised, deduplicated, scored,
    staged, filtered by the minimum score and exported for HubSpot. */
module Pipeline {
  import opened Wrappers
  import opened Text
  import opened Table
  import opened Utils
  import opened Dedupe
  import opened Score
  import opened ExportHubspot

  /** The three tables `process_and_display` returns: the deduplicated leads, the scored and staged
      leads, and the HubSpot export of those at or above the minimum score. */
  datatype Processed = Processed(leads: seq<Record>, scored: seq<Scored>, exported: seq<HubSpotRow>)

  /** `df.empty`: no rows or no columns. */
  predicate IsEmpty(f: Frame) {
    f.height == 0 || f.names == []
  }

  /** Every canonical field is one that `normalize_columns` guarantees. */
  lemma FieldsRequired()
    ensures forall x :: x in Fields ==> x in Required
  {
  }

  /** `df_scored[df_scored["lead_score"] >= min_score]`: the rows at or above the minimum, in order. */
  function KeepAbove(rows: seq<Scored>, minScore: int): (kept: seq<Scored>)
    ensures |kept| <= |rows|
    ensures forall x :: x in kept <==> x in rows && x.leadScore >= minScore
    decreases |rows|
  {
    if rows == [] then []
    else
      var init := rows[..|rows| - 1];
      var x := rows[|rows| - 1];
      var kept := KeepAbove(init, minScore);
      assert rows == init + [x];
      if x.leadScore >= minScore then kept + [x] else kept
  }

  /** The positions of the rows at or above the minimum, in increasing order. */
  ghost function Passing(rows: seq<Scored>, minScore: int): seq<int>
    decreases |rows|
  {
    if rows == [] then []
    else
      var init := rows[..|rows| - 1];
      if rows[|rows| - 1].leadScore >= minScore then Passing(init, minScore) + [|init|]
      else Passing(init, minScore)
  }

  /** `Passing` holds exactly the positions whose score is at least the minimum, each below `|rows|`. */
  lemma {:induction false} PassingExactly(rows: seq<Scored>, minScore: int)
    ensures forall k :: 0 <= k < |Passing(rows, minScore)| ==> 0 <= Passing(rows, minScore)[k] < |rows|
    ensures forall i :: 0 <= i < |rows| ==> (i in Passing(rows, minScore) <==> rows[i].leadScore >= minScore)
    decreases |rows|
  {
    if rows != [] {
      var init := rows[..|rows| - 1];
      var p := Passing(init, minScore);
      PassingExactly(init, minScore);
      assert |init| !in p;
      forall i | 0 <= i < |rows| ensures i in Passing(rows, minScore) <==> rows[i].leadScore >= minScore {
        if i < |init| {
          assert rows[i] == init[i];
        }
      }
    }
  }

  /** The boolean mask keeps each passing row once, in input order: the kept rows are picked out of
      `rows` at increasing positions, and those positions are exactly the ones whose score is at
      least the minimum. */
  lemma {:induction false} KeepAboveInOrder(rows: seq<Scored>, minScore: int)
    ensures PickedAt(KeepAbove(rows, minScore), rows, Passing(rows, minScore))
    ensures forall i :: 0 <= i < |rows| ==> (i in Passing(rows, minScore) <==> rows[i].leadScore >= minScore)
    decreases |rows|
  {
    PassingExactly(rows, minScore);
    if rows == [] {
      assert PickedAt([], rows, []);
    } else {
      var init := rows[..|rows| - 1];
      var x := rows[|rows| - 1];
      assert rows == init + [x];
      KeepAboveInOrder(init, minScore);
      PickedSnoc(KeepAbove(init, minScore), init, x, Passing(init, minScore));
    }
  }

  /** No two rows' leads share company and email. */
  predicate DistinctLeads(rows: seq<Scored>) {
    forall i, j :: 0 <= i < j < |rows| ==> KeyOf(rows[i].lead) != KeyOf(rows[j].lead)
  }

  /** Filtering keeps the leads' companies and emails pairwise different. */
  lemma {:induction false} KeepAboveDistinct(rows: seq<Scored>, minScore: int)
    requires DistinctLeads(rows)
    ensures DistinctLeads(KeepAbove(rows, minScore))
    decreases |rows|
  {
    if rows != [] {
      var init := rows[..|rows| - 1];
      var x := rows[|rows| - 1];
      assert forall i :: 0 <= i < |init| ==> init[i] == rows[i];
      KeepAboveDistinct(init, minScore);
      var k := KeepAbove(init, minScore);
      forall y | y in k
        ensures KeyOf(y.lead) != KeyOf(x.lead)
      {
        var j :| 0 <= j < |init| && init[j] == y;
        assert rows[j] == y;
      }
      if x.leadScore >= minScore {
        var kept := k + [x];
        forall i, j | 0 <= i < j < |kept|
          ensures KeyOf(kept[i].lead) != KeyOf(kept[j].lead)
        {
          if j == |k| {
            assert kept[i] == k[i] && k[i] in k;
          } else {
            assert kept[i] == k[i] && kept[j] == k[j];
          }
        }
      }
    }
  }

  /** The scored and staged table: every lead with its score and its stage, the customer types
      those of score.py. */
  function Staged(leads: seq<Record>, c: Campaign): seq<Scored> {
    AssignLifecycleStage(ScoredRows(leads, c, CustomerTypes))
  }

  /** Each staged row is its lead, in order, with that lead's score, the stage of the score and
      null tags. */
  lemma StagedRows(leads: seq<Record>, c: Campaign)
    ensures var s := Staged(leads, c);
            && |s| == |leads|
            && forall i :: 0 <= i < |s| ==>
                 && s[i].lead == leads[i]
                 && s[i].leadScore == LeadScore(leads[i], c)
                 && s[i].lifecycleStage == Some(Stage(s[i].leadScore))
                 && s[i].priorityRegion == None && s[i].competitorFlag == None
  {
  }

  /** The three tables for the deduplicated `leads`. */
  function Process(leads: seq<Record>, c: Campaign, minScore: int, leadSource: string): Processed {
    var scored := Staged(leads, c);
    Processed(leads, scored, ExportForHubspot(KeepAbove(scored, minScore), leadSource))
  }

  /** The deduplicated records of a table. */
  function LeadsOf(f: Frame): (leads: seq<Record>)
    requires f.Valid()
    ensures |leads| <= f.height
    ensures forall i, j :: 0 <= i < j < |leads| ==> KeyOf(leads[i]) != KeyOf(leads[j])
    ensures forall x :: x in leads ==> x.companyName.Some? && x.email.Some?
  {
    var g := NormalizeColumns(f);
    FieldsRequired();
    DedupeUnique(ToRecords(g));
    DedupeCanonical(ToRecords(g));
    DedupeLeads(ToRecords(g))
  }

  /** `process_and_display`: nothing for an empty table; otherwise the table normalised, its records
      deduplicated, scored, staged, and the rows at or above `minScore` exported under `leadSource`. */
  function ProcessAndDisplay(f: Frame, c: Campaign, minScore: int, leadSource: string): (o: Option<Processed>)
    requires f.Valid()
    ensures o.None? <==> IsEmpty(f)
    ensures o.Some? ==> o.value.leads == LeadsOf(f) && o.value == Process(o.value.leads, c, minScore, leadSource)
  {
    if IsEmpty(f) then None else Some(Process(LeadsOf(f), c, minScore, leadSource))
  }

  /** Every exported row comes from a staged row at or above the minimum, with that row's fields. */
  lemma ExportedFromKept(scored: seq<Scored>, minScore: int, leadSource: string, h: HubSpotRow)
    requires h in ExportForHubspot(KeepAbove(scored, minScore), leadSource)
    ensures exists s :: s in scored && s.leadScore >= minScore && h.leadScore == s.leadScore
                        && h.company == s.lead.companyName && h.email == s.lead.email
                        && h.priorityRegion == s.priorityRegion && h.competitorFlag == FlagText(s.competitorFlag)
                        && h.lifecyclestage == (if s.lifecycleStage.Some? then s.lifecycleStage.value else "lead")
  {
    var kept := KeepAbove(scored, minScore);
    var out := ExportForHubspot(kept, leadSource);
    var i :| 0 <= i < |out| && out[i] == h;
    assert kept[i] in kept;
  }

  /** Exported rows keep the score and the stage of the staged rows they come from. */
  lemma KeptScoresAndStages(scored: seq<Scored>, minScore: int, leadSource: string)
    requires forall s :: s in scored ==> 0 <= s.leadScore <= 100 && s.lifecycleStage == Some(Stage(s.leadScore))
    ensures forall h :: h in ExportForHubspot(KeepAbove(scored, minScore), leadSource) ==>
              minScore <= h.leadScore && 0 <= h.leadScore <= 100 && h.lifecyclestage == Stage(h.leadScore)
  {
    forall h | h in ExportForHubspot(KeepAbove(scored, minScore), leadSource)
      ensures minScore <= h.leadScore && 0 <= h.leadScore <= 100 && h.lifecyclestage == Stage(h.leadScore)
    {
      ExportedFromKept(scored, minScore, leadSource, h);
    }
  }

  /** Finding, in the pipeline: when no lead reaches `minScore`, nothing is kept, so the export
      as written fails, while the intended export is empty. */
  lemma NoLeadKeptFinding(leads: seq<Record>, c: Campaign, minScore: int, leadSource: string)
    requires forall i :: 0 <= i < |leads| ==> LeadScore(leads[i], c) < minScore
    ensures KeepAbove(Staged(leads, c), minScore) == []
    ensures ExportAsWritten(KeepAbove(Staged(leads, c), minScore), leadSource).Failure?
    ensures Process(leads, c, minScore, leadSource).exported == []
  {
    var scored := Staged(leads, c);
    StagedRows(leads, c);
    forall s | s in scored
      ensures s.leadScore < minScore
    {
      var i :| 0 <= i < |scored| && scored[i] == s;
    }
    KeepAboveNone(scored, minScore);
  }

  /** Rows all scored below the minimum leave nothing kept. */
  lemma KeepAboveNone(rows: seq<Scored>, minScore: int)
    requires forall s :: s in rows ==> s.leadScore < minScore
    ensures KeepAbove(rows, minScore) == []
  {
    var kept := KeepAbove(rows, minScore);
    assert forall x :: x !in kept;
  }

  /** For deduplicated leads: every exported row scored at least `minScore` and at most 100, and
      its stage is the stage of its score. */
  lemma ProcessScoresAndStages(leads: seq<Record>, c: Campaign, minScore: int, leadSource: string)
    ensures forall h :: h in Process(leads, c, minScore, leadSource).exported ==>
              minScore <= h.leadScore && 0 <= h.leadScore <= 100 && h.lifecyclestage == Stage(h.leadScore)
  {
    var scored := Staged(leads, c);
    StagedRows(leads, c);
    assert forall s :: s in scored ==> 0 <= s.leadScore <= 100 && s.lifecycleStage == Some(Stage(s.leadScore));
    KeptScoresAndStages(scored, minScore, leadSource);
  }

  /** For leads with pairwise different companies and emails, so are the exported rows. */
  lemma ProcessUnique(leads: seq<Record>, c: Campaign, minScore: int, leadSource: string)
    requires forall i, j :: 0 <= i < j < |leads| ==> KeyOf(leads[i]) != KeyOf(leads[j])
    ensures var out := Process(leads, c, minScore, leadSource).exported;
            && |out| <= |leads|
            && forall i, j :: 0 <= i < j < |out| ==> (out[i].company, out[i].email) != (out[j].company, out[j].email)
  {
    var scored := Staged(leads, c);
    StagedRows(leads, c);
    assert DistinctLeads(scored);
    KeptUnique(scored, minScore, leadSource);
  }

  /** Exported rows of staged rows with pairwise different companies and emails differ so too. */
  lemma KeptUnique(scored: seq<Scored>, minScore: int, leadSource: string)
    requires DistinctLeads(scored)
    ensures var out := ExportForHubspot(KeepAbove(scored, minScore), leadSource);
            && |out| <= |scored|
            && forall i, j :: 0 <= i < j < |out| ==> (out[i].company, out[i].email) != (out[j].company, out[j].email)
  {
    KeepAboveDistinct(scored, minScore);
  }

  /** For leads that all have a company and an email: so do the staged and the exported rows, and
      every export has a null region tag and the text "None" as its competitor flag. */
  lemma ProcessEmailsAndTags(leads: seq<Record>, c: Campaign, minScore: int, leadSource: string)
    requires forall x :: x in leads ==> x.companyName.Some? && x.email.Some?
    ensures var p := Process(leads, c, minScore, leadSource);
            && (forall s :: s in p.scored ==> s.lead.email.Some? && BaseQuality(s.lead) >= 10)
            && (forall h :: h in p.exported ==>
                  h.email.Some? && h.company.Some? && h.priorityRegion == None && h.competitorFlag == "None")
  {
    var scored := Staged(leads, c);
    StagedContacts(leads, c);
    KeptContacts(scored, minScore, leadSource);
  }

  /** Staged rows of leads with a company and an email keep both and carry no tags. */
  lemma StagedContacts(leads: seq<Record>, c: Campaign)
    requires forall x :: x in leads ==> x.companyName.Some? && x.email.Some?
    ensures forall s :: s in Staged(leads, c) ==>
              s.lead.email.Some? && s.lead.companyName.Some? && s.priorityRegion == None && s.competitorFlag == None
  {
    var scored := Staged(leads, c);
    StagedRows(leads, c);
    forall s | s in scored
      ensures s.lead.email.Some? && s.lead.companyName.Some? && s.priorityRegion == None && s.competitorFlag == None
    {
      var i :| 0 <= i < |scored| && scored[i] == s;
      assert leads[i] in leads;
    }
  }

  /** Exported rows of staged rows with a company, an email and no tags have them too, the
      missing competitor flag written as "None". */
  lemma KeptContacts(scored: seq<Scored>, minScore: int, leadSource: string)
    requires forall s :: s in scored ==>
               s.lead.email.Some? && s.lead.companyName.Some? && s.priorityRegion == None && s.competitorFlag == None
    ensures forall h :: h in ExportForHubspot(KeepAbove(scored, minScore), leadSource) ==>
              h.email.Some? && h.company.Some? && h.priorityRegion == None && h.competitorFlag == "None"
  {
    forall h | h in ExportForHubspot(KeepAbove(scored, minScore), leadSource)
      ensures h.email.Some? && h.company.Some? && h.priorityRegion == None && h.competitorFlag == "None"
    {
      ExportedFromKept(scored, minScore, leadSource, h);
    }
  }

  /** Every exported lead scored at least `minScore` and at most 100, and its stage is the stage of
      its score; so with the default minimum of 65 no plain "lead" is exported, and with 80 only
      sales-qualified ones. */
  lemma ExportedScoresAndStages(f: Frame, c: Campaign, minScore: int, leadSource: string)
    requires f.Valid() && !IsEmpty(f)
    ensures var p := ProcessAndDisplay(f, c, minScore, leadSource).value;
            forall h :: h in p.exported ==>
              && minScore <= h.leadScore && 0 <= h.leadScore <= 100
              && h.lifecyclestage == Stage(h.leadScore)
              && (minScore >= 65 ==> h.lifecyclestage != PlainLead)
              && (minScore >= 80 ==> h.lifecyclestage == SalesQualified)
  {
    var p := Process(LeadsOf(f), c, minScore, leadSource);
    ProcessScoresAndStages(LeadsOf(f), c, minScore, leadSource);
    forall h | h in p.exported
      ensures (minScore >= 65 ==> h.lifecyclestage != PlainLead)
              && (minScore >= 80 ==> h.lifecyclestage == SalesQualified)
    {
      StageThresholds(h.leadScore);
    }
  }

  /** Nothing is exported twice: the exported leads' companies and emails are pairwise different,
      and there are no more of them than input rows. */
  lemma ExportedUnique(f: Frame, c: Campaign, minScore: int, leadSource: string)
    requires f.Valid() && !IsEmpty(f)
    ensures var p := ProcessAndDisplay(f, c, minScore, leadSource).value;
            && |p.exported| <= f.height
            && forall i, j :: 0 <= i < j < |p.exported| ==>
                 (p.exported[i].company, p.exported[i].email) != (p.exported[j].company, p.exported[j].email)
  {
    ProcessUnique(LeadsOf(f), c, minScore, leadSource);
  }

  /** After deduplication every lead has a company and an email, so every scored lead earns the
      10 points for an email; and since the tags computed while scoring never reach the table,
      every export carries a null `priority_region` and the text "None" as `competitor_flag`. */
  lemma ExportedEmailsAndTags(f: Frame, c: Campaign, minScore: int, leadSource: string)
    requires f.Valid() && !IsEmpty(f)
    ensures var p := ProcessAndDisplay(f, c, minScore, leadSource).value;
            && (forall s :: s in p.scored ==> s.lead.email.Some? && BaseQuality(s.lead) >= 10)
            && (forall h :: h in p.exported ==>
                  h.email.Some? && h.company.Some? && h.priorityRegion == None && h.competitorFlag == "None")
  {
    ProcessEmailsAndTags(LeadsOf(f), c, minScore, leadSource);
  }
}
