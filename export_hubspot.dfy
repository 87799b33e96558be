/** export_hubspot.py: the scored leads projected onto the seventeen columns of a HubSpot import. */
module ExportHubspot {
  import opened Wrappers
  import opened Text
  import opened Table
  import opened Score

  /** The output columns, in order. */
  const HubSpotColumns: seq<string> :=
    ["company", "firstname", "lastname", "email", "phone", "website", "city", "state", "country",
     "jobtitle", "industry", "lifecyclestage", "lead_source", "priority_region", "competitor_flag",
     "lead_score", "notes"]

  /** One output row, its fields in the order of `HubSpotColumns`. */
  datatype HubSpotRow = HubSpotRow(
    company: Cell, firstname: string, lastname: Cell, email: Cell, phone: Cell, website: Cell,
    city: Cell, state: Cell, country: Cell, jobtitle: Cell, industry: Cell, lifecyclestage: string,
    leadSource: string, priorityRegion: Option<string>, competitorFlag: string, leadScore: int,
    notes: Cell)

  // ---------------------------------------------------------------------------------------
  // Splitting a contact name on its first space (lines 7-9)

  /** The position of the first space, or `|s|` when there is none. */
  function FirstSpace(s: string): (k: nat)
    ensures k <= |s|
    ensures k < |s| <==> ' ' in s
    ensures k < |s| ==> s[k] == ' '
    ensures forall j :: 0 <= j < k ==> s[j] != ' '
  {
    if s == [] then 0
    else if s[0] == ' ' then 0
    else
      var k := 1 + FirstSpace(s[1..]);
      assert forall j :: 1 <= j < |s| ==> s[j] == s[1..][j - 1];
      k
  }

  /** A name cut at its first space: the part before it and, when there is a space, the rest. */
  datatype Name = Name(first: string, last: Option<string>)

  /** The string a cut name came from. */
  function JoinName(n: Name): string {
    match n.last
    case None => n.first
    case Some(l) => n.first + " " + l
  }

  /** `str.split(" ", n=1)` on one contact name: the first part has no space, there is a second
      part exactly when the name has a space, and joining the parts gives back the name. */
  function SplitName(s: string): (n: Name)
    ensures ' ' !in n.first
    ensures n.last.None? <==> ' ' !in s
    ensures JoinName(n) == s
  {
    var k := FirstSpace(s);
    if k == |s| then Name(s, None)
    else
      assert s == s[..k] + " " + s[k + 1..];
      Name(s[..k], Some(s[k + 1..]))
  }

  /** Cutting a joined name gives back its parts, later spaces staying in the second part. */
  lemma SplitJoinName(first: string, last: string)
    requires ' ' !in first
    ensures SplitName(first + " " + last) == Name(first, Some(last))
  {
    var s := first + " " + last;
    var k := FirstSpace(s);
    assert s[|first|] == ' ';
    assert forall j :: 0 <= j < |first| ==> s[j] == first[j];
    assert s[..|first|] == first;
    assert s[|first| + 1..] == last;
  }

  // ---------------------------------------------------------------------------------------
  // The projection

  /** `astype(str)` on a cell of the `competitor_flag` column. */
  function FlagText(b: Option<bool>): string {
    match b
    case None => "None"
    case Some(true) => "True"
    case Some(false) => "False"
  }

  /** Some row's contact name has a space, so the split has a second column. */
  predicate AnySpace(rows: seq<Scored>) {
    exists i :: 0 <= i < |rows| && ' ' in OrEmpty(rows[i].lead.contactName)
  }

  /** One output row. With `padded`, the split produced a second column, a name without a space
      getting null there; otherwise `lastname` is the constant "". */
  function ExportRow(s: Scored, leadSource: string, padded: bool): HubSpotRow {
    var r := s.lead;
    var name := SplitName(OrEmpty(r.contactName));
    HubSpotRow(r.companyName, name.first, if padded then name.last else Some(""), r.email, r.phone,
               r.website, r.city, r.state, r.country, r.jobTitle, r.industry,
               s.lifecycleStage.GetOr(PlainLead), leadSource, s.priorityRegion, FlagText(s.competitorFlag),
               s.leadScore, r.notes)
  }

  /** `export_for_hubspot`: one row per lead, in order. The fields are copied under their CRM names;
      the contact name, a null one read as "", is cut at its first space into `firstname` and the
      rest; every row carries `leadSource`; a missing stage reads as "lead". */
  function ExportForHubspot(rows: seq<Scored>, leadSource: string): (out: seq<HubSpotRow>)
    ensures |out| == |rows|
    ensures forall i :: 0 <= i < |rows| ==>
              var r := rows[i].lead;
              var h := out[i];
              && h.company == r.companyName && h.email == r.email && h.phone == r.phone
              && h.website == r.website && h.city == r.city && h.state == r.state
              && h.country == r.country && h.jobtitle == r.jobTitle && h.industry == r.industry
              && h.notes == r.notes && h.leadScore == rows[i].leadScore
              && h.priorityRegion == rows[i].priorityRegion
              && h.competitorFlag == FlagText(rows[i].competitorFlag)
              && h.lifecyclestage == (if rows[i].lifecycleStage.Some? then rows[i].lifecycleStage.value else "lead")
              && h.leadSource == leadSource
              && ' ' !in h.firstname
              && (' ' in OrEmpty(r.contactName) ==> h.lastname.Some? && OrEmpty(r.contactName) == h.firstname + " " + h.lastname.value)
              && (' ' !in OrEmpty(r.contactName) ==>
                    h.firstname == OrEmpty(r.contactName) && h.lastname == if AnySpace(rows) then None else Some(""))
  {
    var padded := AnySpace(rows);
    seq(|rows|, i requires 0 <= i < |rows| => ExportRow(rows[i], leadSource, padded))
  }

  /** `export_for_hubspot` as written. On a table without rows, `str.split(" ", n=1, expand=True)`
      at line 7 yields a frame without columns, so `names[0]` at line 8 raises a KeyError; on
      any other table the export is `ExportForHubspot`. */
  function ExportAsWritten(rows: seq<Scored>, leadSource: string): (r: Result<seq<HubSpotRow>, string>)
    ensures r.Failure? <==> |rows| == 0
    ensures r.Success? ==> |r.value| == |rows| && r.value == ExportForHubspot(rows, leadSource)
  {
    if rows == [] then Failure("KeyError: 0") else Success(ExportForHubspot(rows, leadSource))
  }

  /** Finding: exporting no rows fails as written, while the intended export is simply empty. */
  lemma EmptyExportFinding(leadSource: string)
    ensures ExportAsWritten([], leadSource).Failure?
    ensures ExportForHubspot([], leadSource) == []
  {
  }

  /** A null contact name gives an empty `firstname`. */
  lemma NullContactEmptyFirstName(rows: seq<Scored>, leadSource: string, i: nat)
    requires i < |rows| && rows[i].lead.contactName.None?
    ensures ExportForHubspot(rows, leadSource)[i].firstname == ""
  {
    assert OrEmpty(rows[i].lead.contactName) == "";
  }
}
