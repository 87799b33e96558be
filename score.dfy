/** score.py: the rule-based lead score, the customer type and the lifecycle stage. */
module Score {
  import opened Wrappers
  import opened Text
  import opened Table

  // ---------------------------------------------------------------------------------------
  // The dictionaries (lines 5-41)

  const IndustryKeywords: map<string, seq<string>> := map[
    "Chemicals" := ["chemical", "chem", "specialty", "resin", "solvent", "polymer", "intermediate"],
    "Agrochemicals" := ["agro", "fertilizer", "pesticide", "crop", "seed", "agro-chem"],
    "Food & Beverage" := ["dairy", "brew", "beverage", "food", "distillery", "sugar", "edible oil", "brewery"],
    "Pharma" := ["pharma", "biotech", "api", "formulation", "gmp", "cgmp"],
    "Oil & Gas" := ["refinery", "petro", "oil", "gas", "downstream", "upstream", "offshore"],
    "General Manufacturing" := ["manufacturing", "fabrication", "plant"]
  ]

  const ProductKeywords: map<string, seq<string>> := map[
    "Vacuum Systems" := ["vacuum", "dry pump", "liquid ring", "roots", "screw pump"],
    "Evaporation" := ["evaporator", "mvr", "falling film", "forced circulation", "evaporation"],
    "Distillation" := ["distillation", "rectification", "column", "vacuum distillation"],
    "Filtration" := ["filter", "nutsch", "acg filter", "bag filter", "cartridge"],
    "Condensation" := ["condenser", "condensation", "heat exchanger"],
    "Scrubbing" := ["scrubber", "packed bed", "venturi", "caustic scrubber"]
  ]

  const RegionHints: map<string, seq<string>> := map[
    "India" := ["india", "mumbai", "pune", "gujarat", "hyderabad", "vizag", "visakhapatnam", "bengaluru", "delhi", "noida", ".in"],
    "Middle East" := ["uae", "dubai", "abu dhabi", "saudi", "oman", "qatar", "bahrain", "kuwait", ".ae", ".sa", ".qa", ".om", ".bh", ".kw"],
    "SE Asia" := ["indonesia", "jakarta", "malaysia", "kuala lumpur", "thailand", "vietnam", "philippines", "singapore", ".id", ".my", ".th", ".vn", ".ph", ".sg"],
    "South America" := ["brazil", "argentina", "colombia", "chile", "peru", ".br", ".ar", ".co", ".cl", ".pe"],
    "Italy" := ["italy", "italia", "milan", "torino", ".it"],
    "Bulgaria" := ["bulgaria", "sofia", ".bg"],
    "Europe" := ["germany", "france", "spain", "uk", "poland", "netherlands", ".de", ".fr", ".es", ".uk", ".pl", ".nl"],
    "North America" := ["usa", "united states", "canada", "mexico", ".us", ".ca", ".mx"]
  ]

  /** The customer types in the dictionary's (insertion) order, which is the order they are tried. */
  const CustomerTypes: seq<(string, seq<string>)> := [
    ("EPC", ["epc", "engineering procurement", "turnkey", "lump sum", "integrator", "system integrator"]),
    ("OEM", ["oem", "original equipment manufacturer", "machine builder", "skid"]),
    ("End User", ["plant", "factory", "manufacturer", "processing", "production"]),
    ("Distributor", ["distributor", "channel partner", "reseller", "dealer"])
  ]

  const Competitors: seq<string> :=
    ["busch", "edwards", "atlas copco", "pfeiffer", "leybold", "ingersoll rand", "gardner denver"]

  /** The alternatives of the decision-maker pattern (line 97). */
  const DecisionWords: seq<string> :=
    ["director", "manager", "head", "vp", "chief", "owner", "ceo", "cto", "operations",
     "procurement", "maintenance", "project"]

  /** The type given when no customer type matches. */
  const UnknownType := "Unknown"

  /** The caller's campaign settings; a missing list is the empty list. */
  datatype Campaign = Campaign(industryFocus: seq<string>, regions: seq<string>, productNeeds: seq<string>)

  /** `dict.get(name, [])`. */
  function Keywords(dict: map<string, seq<string>>, name: string): seq<string> {
    if name in dict then dict[name] else []
  }

  /** `_contains_any(hay, dict.get(name, []))`. */
  predicate Matches(hay: string, dict: map<string, seq<string>>, name: string) {
    ContainsAny(hay, Keywords(dict, name))
  }

  // ---------------------------------------------------------------------------------------
  // Haystacks: f-strings of fields separated by one space; a null prints as "None"

  function Hay(cells: seq<Cell>): string {
    Join(seq(|cells|, i requires 0 <= i < |cells| => Format(cells[i])), " ")
  }

  function IndustryHay(r: Record): string { Hay([r.industry, r.notes]) }
  function ProductHay(r: Record): string { Hay([r.notes, r.website]) }
  function RegionHay(r: Record): string { Hay([r.country, r.state, r.city, r.email, r.website]) }
  function TypeHay(r: Record): string { Hay([r.industry, r.jobTitle, r.notes, r.companyName]) }
  function CompetitorHay(r: Record): string { Hay([r.notes, r.website, r.companyName]) }

  // ---------------------------------------------------------------------------------------
  // The contributions

  /** Lines 54-56: 10 for an email, 5 for a phone, 5 for a website that is not null. */
  function BaseQuality(r: Record): (n: int)
    ensures n == (if r.email.Some? then 10 else 0) + (if r.phone.Some? then 5 else 0)
                 + (if r.website.Some? then 5 else 0)
    ensures 0 <= n <= 20
  {
    (if r.email.Some? then 10 else 0) + (if r.phone.Some? then 5 else 0) + (if r.website.Some? then 5 else 0)
  }

  /** Lines 59-74: 15 for every listed name whose keywords occur in the haystack. */
  function Fit(hay: string, names: seq<string>, dict: map<string, seq<string>>): (n: int)
    ensures 0 <= n <= 15 * |names| && n % 15 == 0
    decreases |names|
  {
    if names == [] then 0
    else Fit(hay, names[..|names| - 1], dict) + (if Matches(hay, dict, names[|names| - 1]) then 15 else 0)
  }

  /** Lines 77-83: the first region, in the caller's order, one of whose hints occurs in the
      haystack; this is the intended `priority_region` tag. */
  function RegionTag(hay: string, regions: seq<string>, hints: map<string, seq<string>>): (t: Option<string>)
    ensures t.Some? <==> exists i :: 0 <= i < |regions| && Matches(hay, hints, regions[i])
    ensures t.Some? ==> exists i :: 0 <= i < |regions| && regions[i] == t.value && Matches(hay, hints, regions[i])
                          && forall j :: 0 <= j < i ==> !Matches(hay, hints, regions[j])
    decreases |regions|
  {
    if regions == [] then None
    else if Matches(hay, hints, regions[0]) then Some(regions[0])
    else
      var rest := regions[1..];
      var t := RegionTag(hay, rest, hints);
      RegionTagTail(hay, regions, hints, t);
      t
  }

  /** The first-match properties carry over from the tail of the list to the whole list when
      the head does not match. */
  lemma RegionTagTail(hay: string, regions: seq<string>, hints: map<string, seq<string>>, t: Option<string>)
    requires regions != [] && !Matches(hay, hints, regions[0])
    requires var rest := regions[1..];
             && (t.Some? <==> exists i :: 0 <= i < |rest| && Matches(hay, hints, rest[i]))
             && (t.Some? ==> exists i :: 0 <= i < |rest| && rest[i] == t.value && Matches(hay, hints, rest[i])
                                && forall j :: 0 <= j < i ==> !Matches(hay, hints, rest[j]))
    ensures t.Some? <==> exists i :: 0 <= i < |regions| && Matches(hay, hints, regions[i])
    ensures t.Some? ==> exists i :: 0 <= i < |regions| && regions[i] == t.value && Matches(hay, hints, regions[i])
                          && forall j :: 0 <= j < i ==> !Matches(hay, hints, regions[j])
  {
    var rest := regions[1..];
    if exists i :: 0 <= i < |regions| && Matches(hay, hints, regions[i]) {
      var i :| 0 <= i < |regions| && Matches(hay, hints, regions[i]);
      assert rest[i - 1] == regions[i];
    }
    if t.Some? {
      var i :| 0 <= i < |rest| && rest[i] == t.value && Matches(hay, hints, rest[i])
                && forall j :: 0 <= j < i ==> !Matches(hay, hints, rest[j]);
      assert regions[i + 1] == t.value;
      forall j | 0 <= j < i + 1
        ensures !Matches(hay, hints, regions[j])
      {
        if j > 0 {
          assert regions[j] == rest[j - 1];
        }
      }
    }
  }

  /** `region_bonus`: 10 when some region matches, else 0. */
  function RegionPoints(hay: string, regions: seq<string>, hints: map<string, seq<string>>): int {
    if RegionTag(hay, regions, hints).Some? then 10 else 0
  }

  /** `region_bonus`, scanning the regions with an early return. */
  method RegionBonus(hay: string, regions: seq<string>, hints: map<string, seq<string>>) returns (b: int)
    ensures b == 10 <==> exists i :: 0 <= i < |regions| && Matches(hay, hints, regions[i])
    ensures b == 0 || b == 10
    ensures b == RegionPoints(hay, regions, hints)
  {
    for k := 0 to |regions|
      invariant forall j :: 0 <= j < k ==> !Matches(hay, hints, regions[j])
    {
      if ContainsAny(hay, Keywords(hints, regions[k])) {
        return 10;
      }
    }
    return 0;
  }

  /** `detect_customer_type`: the first type one of whose keywords occurs in the haystack. */
  function CustomerType(hay: string, types: seq<(string, seq<string>)>): string
    decreases |types|
  {
    if types == [] then UnknownType
    else if ContainsAny(hay, types[0].1) then types[0].0
    else CustomerType(hay, types[1..])
  }

  /** The type found is the first one, in the given order, with a keyword in the haystack;
      "Unknown" when there is none. */
  lemma {:induction false} CustomerTypeFirstMatch(hay: string, types: seq<(string, seq<string>)>)
    ensures (forall i :: 0 <= i < |types| ==> !ContainsAny(hay, types[i].1)) ==> CustomerType(hay, types) == UnknownType
    ensures (exists i :: 0 <= i < |types| && ContainsAny(hay, types[i].1)) ==>
              exists i :: 0 <= i < |types| && types[i].0 == CustomerType(hay, types) && ContainsAny(hay, types[i].1)
                          && forall j :: 0 <= j < i ==> !ContainsAny(hay, types[j].1)
    decreases |types|
  {
    if types != [] && !ContainsAny(hay, types[0].1) {
      var rest := types[1..];
      CustomerTypeFirstMatch(hay, rest);
      assert forall i :: 1 <= i < |types| ==> types[i] == rest[i - 1];
      if exists i :: 0 <= i < |rest| && ContainsAny(hay, rest[i].1) {
        var i :| 0 <= i < |rest| && rest[i].0 == CustomerType(hay, rest) && ContainsAny(hay, rest[i].1)
                  && forall j :: 0 <= j < i ==> !ContainsAny(hay, rest[j].1);
        assert types[i + 1].0 == CustomerType(hay, types);
      }
    }
  }

  /** `detect_customer_type`, scanning the types with an early return. */
  method DetectCustomerType(r: Record, types: seq<(string, seq<string>)>) returns (t: string)
    ensures t == CustomerType(TypeHay(r), types)
  {
    var hay := TypeHay(r);
    for k := 0 to |types|
      invariant CustomerType(hay, types) == CustomerType(hay, types[k..])
    {
      assert types[k..][1..] == types[k + 1..];
      if ContainsAny(hay, types[k].1) {
        return types[k].0;
      }
    }
    return UnknownType;
  }

  /** Lines 96-98: 10 when the lower-cased contact name holds a decision-maker word; a null
      name counts as empty. */
  function DecisionPoints(contact: Cell): (n: int)
    ensures n == 0 || n == 10
    ensures n == 10 <==> exists j :: 0 <= j < |DecisionWords| && Contains(Lower(OrEmpty(contact)), DecisionWords[j])
  {
    if ContainsAny(OrEmpty(contact), DecisionWords) then 10 else 0
  }

  /** A null contact name is read as "", which holds no decision-maker word. */
  lemma NullContactEarnsNothing()
    ensures DecisionPoints(None) == 0
  {
    assert Lower("") == "";
    forall j | 0 <= j < |DecisionWords|
      ensures !Contains("", DecisionWords[j])
    {
      assert |DecisionWords[j]| > 0;
    }
  }

  /** The contact name is lower-cased first, so a capitalised title counts. */
  lemma PlantManagerEarnsTen()
    ensures DecisionPoints(Some("Plant Manager")) == 10
  {
    var t := Lower("Plant Manager");
    assert t == "plant manager";
    assert StartsWith(t[6..], DecisionWords[1]);
  }

  /** The case-sensitive pattern `@(gmail|yahoo|hotmail|outlook)\.` found somewhere in `e`. */
  predicate FreeMail(e: string) {
    Contains(e, "@gmail.") || Contains(e, "@yahoo.") || Contains(e, "@hotmail.") || Contains(e, "@outlook.")
  }

  /** Line 101: -5 for a free-mail address, +5 otherwise, a null email counting as empty. */
  function EmailTerm(email: Cell): (n: int)
    ensures n == -5 <==> FreeMail(OrEmpty(email))
    ensures n == 5 <==> !FreeMail(OrEmpty(email))
  {
    if FreeMail(OrEmpty(email)) then -5 else 5
  }

  /** The intended `competitor_flag`: some competitor's name occurs, ignoring case, in the notes,
      website and company. */
  predicate CompetitorFlag(r: Record) {
    ContainsAny(CompetitorHay(r), Competitors)
  }

  /** `competitor_penalty`: -20 for a competitor, else 0. */
  function CompetitorTerm(r: Record): (n: int)
    ensures n == -20 <==> CompetitorFlag(r)
    ensures n == 0 <==> !CompetitorFlag(r)
  {
    if CompetitorFlag(r) then -20 else 0
  }

  /** Line 113: `clip(0, 100)`. */
  function Clamp(x: int): (r: int)
    ensures 0 <= r <= 100
    ensures 0 <= x <= 100 ==> r == x
    ensures x < 0 ==> r == 0
    ensures x > 100 ==> r == 100
  {
    if x < 0 then 0 else if x > 100 then 100 else x
  }

  /** The sum of every contribution before clipping. */
  function RawScore(r: Record, c: Campaign): int {
    BaseQuality(r)
      + Fit(IndustryHay(r), c.industryFocus, IndustryKeywords)
      + Fit(ProductHay(r), c.productNeeds, ProductKeywords)
      + RegionPoints(RegionHay(r), c.regions, RegionHints)
      + DecisionPoints(r.contactName)
      + EmailTerm(r.email)
      + CompetitorTerm(r)
  }

  /** `lead_score`. */
  function LeadScore(r: Record, c: Campaign): (s: int)
    ensures 0 <= s <= 100
  {
    Clamp(RawScore(r, c))
  }

  // ---------------------------------------------------------------------------------------
  // Properties of the contributions

  /** The names `Fit` counts: those whose keywords occur in the haystack. */
  function Hits(hay: string, names: seq<string>, dict: map<string, seq<string>>): (k: nat)
    ensures k <= |names|
    decreases |names|
  {
    if names == [] then 0
    else Hits(hay, names[..|names| - 1], dict) + (if Matches(hay, dict, names[|names| - 1]) then 1 else 0)
  }

  /** Every matching name adds 15 independently of the others. */
  lemma {:induction false} FitCountsHits(hay: string, names: seq<string>, dict: map<string, seq<string>>)
    ensures Fit(hay, names, dict) == 15 * Hits(hay, names, dict)
    decreases |names|
  {
    if names != [] {
      FitCountsHits(hay, names[..|names| - 1], dict);
    }
  }

  /** The count of matching names over a concatenation is the sum of the counts. */
  lemma {:induction false} HitsAppend(hay: string, a: seq<string>, b: seq<string>, dict: map<string, seq<string>>)
    ensures Hits(hay, a + b, dict) == Hits(hay, a, dict) + Hits(hay, b, dict)
    decreases |b|
  {
    if b == [] {
      assert a + b == a;
    } else {
      assert (a + b)[..|a + b| - 1] == a + b[..|b| - 1];
      HitsAppend(hay, a, b[..|b| - 1], dict);
    }
  }

  /** The points of a focus list are the sum of the points of its parts. */
  lemma FitAppend(hay: string, a: seq<string>, b: seq<string>, dict: map<string, seq<string>>)
    ensures Fit(hay, a + b, dict) == Fit(hay, a, dict) + Fit(hay, b, dict)
  {
    FitCountsHits(hay, a + b, dict);
    FitCountsHits(hay, a, dict);
    FitCountsHits(hay, b, dict);
    HitsAppend(hay, a, b, dict);
  }

  /** All names match exactly when the points are 15 per name, and none matches exactly when
      they are 0. */
  lemma FitExtremes(hay: string, names: seq<string>, dict: map<string, seq<string>>)
    ensures Fit(hay, names, dict) == 15 * |names| <==> forall i :: 0 <= i < |names| ==> Matches(hay, dict, names[i])
    ensures Fit(hay, names, dict) == 0 <==> forall i :: 0 <= i < |names| ==> !Matches(hay, dict, names[i])
  {
    FitFull(hay, names, dict);
    FitZero(hay, names, dict);
  }

  lemma {:induction false} FitFull(hay: string, names: seq<string>, dict: map<string, seq<string>>)
    ensures Fit(hay, names, dict) == 15 * |names| <==> forall i :: 0 <= i < |names| ==> Matches(hay, dict, names[i])
    decreases |names|
  {
    if names != [] {
      var init := names[..|names| - 1];
      FitFull(hay, init, dict);
      assert Fit(hay, names, dict) == Fit(hay, init, dict) + (if Matches(hay, dict, names[|names| - 1]) then 15 else 0);
      assert 15 * |names| == 15 * |init| + 15;
      assert forall i :: 0 <= i < |init| ==> init[i] == names[i];
    }
  }

  lemma {:induction false} FitZero(hay: string, names: seq<string>, dict: map<string, seq<string>>)
    ensures Fit(hay, names, dict) == 0 <==> forall i :: 0 <= i < |names| ==> !Matches(hay, dict, names[i])
    decreases |names|
  {
    if names != [] {
      var init := names[..|names| - 1];
      FitZero(hay, init, dict);
      assert Fit(hay, names, dict) == Fit(hay, init, dict) + (if Matches(hay, dict, names[|names| - 1]) then 15 else 0);
      assert forall i :: 0 <= i < |init| ==> init[i] == names[i];
    }
  }

  /** A focus name missing from the dictionary has no keywords and never adds points. */
  lemma FitUnknownName(hay: string, names: seq<string>, x: string, dict: map<string, seq<string>>)
    requires x !in dict
    ensures Fit(hay, names + [x], dict) == Fit(hay, names, dict)
  {
    assert (names + [x])[..|names + [x]| - 1] == names;
  }

  /** The region contribution is 10 exactly when some listed region has a hint in the haystack,
      and the tag that region_bonus would set is the first such region. */
  lemma RegionPointsTag(hay: string, regions: seq<string>, hints: map<string, seq<string>>)
    ensures RegionPoints(hay, regions, hints) == 10 <==> exists i :: 0 <= i < |regions| && Matches(hay, hints, regions[i])
    ensures RegionPoints(hay, regions, hints) == 0 <==> RegionTag(hay, regions, hints) == None
  {
  }

  /** A null email counts as "" for the free-mail test, so it earns the corporate-email +5. */
  lemma NullEmailEarnsFive()
    ensures EmailTerm(None) == 5
  {
    assert OrEmpty(None) == "";
    assert !StartsWith("", "@gmail.");
    assert !StartsWith("", "@yahoo.");
    assert !StartsWith("", "@hotmail.");
    assert !StartsWith("", "@outlook.");
  }

  /** An occurrence inside a middle piece is an occurrence in the whole string. */
  lemma ContainsInfix(a: string, b: string, c: string, needle: string)
    requires Contains(b, needle)
    ensures Contains(a + b + c, needle)
  {
    var i :| 0 <= i <= |b| - |needle| && StartsWith(b[i..], needle);
    assert (a + b + c)[|a| + i..][..|needle|] == b[i..][..|needle|];
  }

  /** A three-field haystack is the three texts with a space between each two. */
  lemma HayThree(a: Cell, b: Cell, c: Cell)
    ensures Hay([a, b, c]) == Format(a) + " " + Format(b) + " " + Format(c)
  {
    var cells := seq(3, i requires 0 <= i < 3 => Format([a, b, c][i]));
    assert cells == [Format(a), Format(b), Format(c)];
    assert cells[1..] == [Format(b), Format(c)];
    assert cells[1..][1..] == [Format(c)];
    assert Join(cells[1..][1..], " ") == Format(c);
    assert Join(cells[1..], " ") == Format(b) + " " + Format(c);
    assert Join(cells, " ") == Format(a) + " " + (Format(b) + " " + Format(c));
  }

  /** A competitor's name in the company, in any letter case, flags the lead. */
  lemma CompetitorInCompany(r: Record, k: nat)
    requires k < |Competitors|
    requires Contains(Lower(Format(r.companyName)), Competitors[k])
    ensures CompetitorFlag(r)
    ensures CompetitorTerm(r) == -20
  {
    var pre := Format(r.notes) + " " + Format(r.website) + " ";
    var hay := Hay([r.notes, r.website, r.companyName]);
    HayThree(r.notes, r.website, r.companyName);
    LowerConcat(pre, Format(r.companyName));
    assert Lower(hay) == Lower(pre) + Lower(Format(r.companyName)) + "";
    ContainsInfix(Lower(pre), Lower(Format(r.companyName)), "", Competitors[k]);
  }

  /** A competitor's name in the notes, in any letter case, flags the lead. */
  lemma CompetitorInNotes(r: Record, k: nat)
    requires k < |Competitors|
    requires Contains(Lower(Format(r.notes)), Competitors[k])
    ensures CompetitorFlag(r)
    ensures CompetitorTerm(r) == -20
  {
    var post := " " + Format(r.website) + " " + Format(r.companyName);
    var hay := Hay([r.notes, r.website, r.companyName]);
    HayThree(r.notes, r.website, r.companyName);
    assert hay == Format(r.notes) + post;
    LowerConcat(Format(r.notes), post);
    assert Lower(hay) == "" + Lower(Format(r.notes)) + Lower(post);
    ContainsInfix("", Lower(Format(r.notes)), Lower(post), Competitors[k]);
  }

  /** The documented example: notes reading "Busch Vacuum" flag the lead and cost it 20 points. */
  lemma BuschVacuumIsCompetitor(r: Record)
    requires r.notes == Some("Busch Vacuum")
    ensures CompetitorFlag(r) && CompetitorTerm(r) == -20
  {
    var low := Lower("Busch Vacuum");
    assert low[..5] == "busch";
    assert StartsWith(low[0..], Competitors[0]);
    CompetitorInNotes(r, 0);
  }

  /** Clipping never reverses an order. */
  lemma ClampMonotone(x: int, y: int)
    requires x <= y
    ensures Clamp(x) <= Clamp(y)
  {
  }

  /** Widening the industry focus never lowers a lead's score: each focus name adds 0 or 15. */
  lemma ScoreMonotoneInIndustries(r: Record, c: Campaign, more: seq<string>)
    ensures LeadScore(r, c) <= LeadScore(r, c.(industryFocus := c.industryFocus + more))
  {
    FitAppend(IndustryHay(r), c.industryFocus, more, IndustryKeywords);
  }

  /** Widening the product needs never lowers a lead's score. */
  lemma ScoreMonotoneInProducts(r: Record, c: Campaign, more: seq<string>)
    ensures LeadScore(r, c) <= LeadScore(r, c.(productNeeds := c.productNeeds + more))
  {
    FitAppend(ProductHay(r), c.productNeeds, more, ProductKeywords);
  }

  /** The unclipped sum lies between -25 and 45 plus 15 per focus name and product need. */
  lemma RawScoreBounds(r: Record, c: Campaign)
    ensures -25 <= RawScore(r, c) <= 45 + 15 * |c.industryFocus| + 15 * |c.productNeeds|
  {
  }

  // ---------------------------------------------------------------------------------------
  // score_leads

  /** A lead with the columns scoring and staging add: `priority_region` and `competitor_flag`
      start null, and `lifecycle_stage` exists once a stage has been assigned. */
  datatype Scored = Scored(lead: Record, leadScore: int, customerType: string,
                           priorityRegion: Option<string>, competitorFlag: Option<bool>,
                           lifecycleStage: Option<string>)

  /** One of the loops of lines 60-65 and 69-74: 15 added for every listed name whose keywords
      occur in the haystack. */
  method FitLoop(hay: string, names: seq<string>, dict: map<string, seq<string>>) returns (n: int)
    ensures n == Fit(hay, names, dict)
  {
    n := 0;
    for k := 0 to |names|
      invariant n == Fit(hay, names[..k], dict)
    {
      assert names[..k + 1][..k] == names[..k];
      if ContainsAny(hay, Keywords(dict, names[k])) { n := n + 15; }
    }
    assert names[..|names|] == names;
  }

  /** The score of one row, accumulated rule by rule as `score_leads` adds its columns. */
  method RowScore(r: Record, c: Campaign) returns (score: int)
    ensures score == LeadScore(r, c)
  {
    var base := 0;
    if r.email.Some? { base := base + 10; }
    if r.phone.Some? { base := base + 5; }
    if r.website.Some? { base := base + 5; }
    var industry := FitLoop(IndustryHay(r), c.industryFocus, IndustryKeywords);
    var product := FitLoop(ProductHay(r), c.productNeeds, ProductKeywords);
    var region := RegionBonus(RegionHay(r), c.regions, RegionHints);
    var decision, email, competitor := DecisionPoints(r.contactName), EmailTerm(r.email), CompetitorTerm(r);
    RawScoreSum(r, c, base, industry, product, region, decision, email, competitor);
    score := base + industry + product + region + decision + email + competitor;
    if score < 0 { score := 0; } else if score > 100 { score := 100; }
  }

  /** The contributions, computed one by one, add up to the raw score. */
  lemma RawScoreSum(r: Record, c: Campaign, base: int, industry: int, product: int, region: int,
                    decision: int, email: int, competitor: int)
    requires base == BaseQuality(r)
    requires industry == Fit(IndustryHay(r), c.industryFocus, IndustryKeywords)
    requires product == Fit(ProductHay(r), c.productNeeds, ProductKeywords)
    requires region == RegionPoints(RegionHay(r), c.regions, RegionHints)
    requires decision == DecisionPoints(r.contactName)
    requires email == EmailTerm(r.email) && competitor == CompetitorTerm(r)
    ensures base + industry + product + region + decision + email + competitor == RawScore(r, c)
  {
  }

  /** `score_leads`: every row scored and typed; the region and competitor tags that the
      source writes to per-row copies never reach the table, so they stay null. */
  method ScoreLeads(rows: seq<Record>, c: Campaign, types: seq<(string, seq<string>)>) returns (scored: seq<Scored>)
    ensures scored == ScoredRows(rows, c, types)
  {
    scored := [];
    for i := 0 to |rows|
      invariant scored == ScoredRows(rows[..i], c, types)
    {
      var row := ScoreRow(rows[i], c, types);
      ScoredRowsSnoc(rows, i, c, types);
      scored := scored + [row];
    }
    assert rows[..|rows|] == rows;
  }

  /** One more row scored extends the scored table by that row. */
  lemma ScoredRowsSnoc(rows: seq<Record>, i: nat, c: Campaign, types: seq<(string, seq<string>)>)
    requires i < |rows|
    ensures ScoredRows(rows[..i + 1], c, types) == ScoredRows(rows[..i], c, types) + [ScoredRow(rows[i], c, types)]
  {
    var a := ScoredRows(rows[..i + 1], c, types);
    var b := ScoredRows(rows[..i], c, types) + [ScoredRow(rows[i], c, types)];
    forall j | 0 <= j < i + 1
      ensures a[j] == b[j]
    {
      assert rows[..i + 1][j] == rows[j];
      if j < i {
        assert rows[..i][j] == rows[j];
      }
    }
  }

  /** The body of `score_leads` for one row: its score and its customer type. */
  method ScoreRow(r: Record, c: Campaign, types: seq<(string, seq<string>)>) returns (row: Scored)
    ensures row == ScoredRow(r, c, types)
  {
    var s := RowScore(r, c);
    var t := DetectCustomerType(r, types);
    row := Scored(r, s, t, None, None, None);
  }

  /** A row as `score_leads` leaves it: its score and customer type set, both tags null and no
      stage yet. */
  function ScoredRow(r: Record, c: Campaign, types: seq<(string, seq<string>)>): Scored {
    Scored(r, LeadScore(r, c), CustomerType(TypeHay(r), types), None, None, None)
  }

  /** The table `score_leads` returns: every row as `ScoredRow` leaves it, in order. */
  function ScoredRows(rows: seq<Record>, c: Campaign, types: seq<(string, seq<string>)>): seq<Scored> {
    seq(|rows|, i requires 0 <= i < |rows| => ScoredRow(rows[i], c, types))
  }

  // ---------------------------------------------------------------------------------------
  // assign_lifecycle_stage (lines 116-123)

  const SalesQualified := "salesqualifiedlead"
  const MarketingQualified := "marketingqualifiedlead"
  const PlainLead := "lead"

  /** `stage`. */
  function Stage(score: int): string {
    if score >= 80 then SalesQualified
    else if score >= 65 then MarketingQualified
    else PlainLead
  }

  /** The stages in their order of qualification. */
  function StageLevel(stage: string): nat {
    if stage == SalesQualified then 2 else if stage == MarketingQualified then 1 else 0
  }

  /** `assign_lifecycle_stage`: every row gets the stage of its score; nothing else changes. */
  function AssignLifecycleStage(scored: seq<Scored>): (staged: seq<Scored>)
    ensures |staged| == |scored|
    ensures forall i :: 0 <= i < |scored| ==>
              staged[i] == scored[i].(lifecycleStage := Some(Stage(scored[i].leadScore)))
  {
    seq(|scored|, i requires 0 <= i < |scored| => scored[i].(lifecycleStage := Some(Stage(scored[i].leadScore))))
  }

  /** `stage`'s two thresholds, in both directions. */
  lemma StageThresholds(score: int)
    ensures Stage(score) == SalesQualified <==> score >= 80
    ensures Stage(score) == MarketingQualified <==> 65 <= score < 80
    ensures Stage(score) == PlainLead <==> score < 65
  {
  }

  /** A higher score never gets a lower stage. */
  lemma StageMonotone(a: int, b: int)
    requires a <= b
    ensures StageLevel(Stage(a)) <= StageLevel(Stage(b))
  {
  }
}
