/** utils.py: header normalisation for tables of any origin. */
module Utils {
  import opened Text
  import opened Table

  /** The alias table `COL_MAP`. */
  const ColMap: map<string, string> := map[
    "company" := "company_name",
    "companyname" := "company_name",
    "name" := "contact_name",
    "contact" := "contact_name",
    "mail" := "email",
    "e-mail" := "email",
    "phone number" := "phone",
    "mobile" := "phone",
    "site" := "website",
    "url" := "website",
    "state/province" := "state",
    "province" := "state",
    "job" := "job_title",
    "title" := "job_title"
  ]

  /** The fields `normalize_columns` guarantees, in the order it adds them. */
  const Required: seq<string> :=
    ["company_name", "contact_name", "email", "phone", "website",
     "country", "state", "city", "industry", "notes", "job_title"]

  /** A header in canonical form: no upper-case letter, no space, no whitespace at either end. */
  predicate IsCanonical(h: string) {
    && IsLower(h)
    && (forall i :: 0 <= i < |h| ==> h[i] != ' ')
    && (h != [] ==> !IsSpace(h[0]) && !IsSpace(h[|h| - 1]))
  }

  /** Lower-casing and replacing spaces turn a stripped string into a canonical one. */
  lemma CanonicalForm(s: string)
    requires s != [] ==> !IsSpace(s[0]) && !IsSpace(s[|s| - 1])
    ensures IsCanonical(ReplaceSpaces(Lower(s)))
  {
    var r := ReplaceSpaces(Lower(s));
    if s != [] {
      LowerCharFacts(s[0]);
      LowerCharFacts(s[|s| - 1]);
    }
    forall i | 0 <= i < |r|
      ensures !('A' <= r[i] <= 'Z')
    {
      LowerCharFacts(s[i]);
    }
  }

  /** `c.strip().lower().replace(" ", "_")`. */
  function CanonicalHeader(h: string): (r: string)
    ensures IsCanonical(r)
  {
    CanonicalForm(Strip(h));
    ReplaceSpaces(Lower(Strip(h)))
  }

  /** A canonical header is left as it is. */
  lemma CanonicalHeaderFixed(h: string)
    requires IsCanonical(h)
    ensures CanonicalHeader(h) == h
  {
    StripUnchanged(h);
    LowerUnchanged(h);
  }

  /** The name `df.rename` gives a header: its alias target when it is a key of the table. */
  function Rename(h: string): string {
    if h in ColMap then ColMap[h] else h
  }

  /** The header list after line 23 and the rename on line 24. */
  function RenamedHeaders(names: seq<string>): (r: seq<string>)
    ensures |r| == |names|
    ensures forall j :: 0 <= j < |names| ==> r[j] == Rename(CanonicalHeader(names[j]))
  {
    seq(|names|, j requires 0 <= j < |names| => Rename(CanonicalHeader(names[j])))
  }

  /** `normalize_columns`: headers canonicalised and renamed by the alias table, then every
      required field that is still missing added as a column of nulls. */
  function NormalizeColumns(f: Frame): (g: Frame)
    requires f.Valid()
    ensures g.Valid() && g.height == f.height
    ensures |g.names| >= |f.names|
    ensures forall j :: 0 <= j < |f.names| ==> g.names[j] == Rename(CanonicalHeader(f.names[j]))
    ensures g.columns[..|f.columns|] == f.columns
    ensures forall r :: r in Required ==> r in g.names
    ensures forall j :: |f.names| <= j < |g.names| ==>
              g.names[j] in Required && g.names[j] !in g.names[..|f.names|] && g.columns[j] == Nulls(f.height)
  {
    var renamed := Frame(RenamedHeaders(f.names), f.columns, f.height);
    var g := AddMissing(renamed, Required);
    assert g.names[..|f.names|] == renamed.names;
    g
  }

  /** No required field is an alias. */
  lemma RequiredNotAliases()
    ensures forall r :: r in Required ==> r !in ColMap
  {
  }

  /** A field name is canonical. */
  lemma FieldNameCanonical(s: string)
    requires IsFieldName(s)
    ensures IsCanonical(s)
  {
  }

  /** Every required field is canonical. */
  lemma RequiredCanonical()
    ensures forall r :: r in Required ==> IsCanonical(r)
  {
    FieldNames();
    forall r | r in Required
      ensures IsCanonical(r)
    {
      assert r in Fields;
      FieldNameCanonical(r);
    }
  }

  /** Every alias target is a required field. */
  lemma ColMapTargetsRequired()
    ensures forall k :: k in ColMap ==> ColMap[k] in Required
  {
  }

  /** No header of a normalised frame is an alias, and each is canonical. */
  lemma {:induction false} NormalizedHeadersSettled(f: Frame)
    requires f.Valid()
    ensures forall x :: x in NormalizeColumns(f).names ==> IsCanonical(x) && x !in ColMap
  {
    var g := NormalizeColumns(f);
    RequiredCanonical();
    RequiredNotAliases();
    ColMapTargetsRequired();
    forall x | x in g.names
      ensures IsCanonical(x) && x !in ColMap
    {
      var j :| 0 <= j < |g.names| && g.names[j] == x;
      if j < |f.names| {
        var c := CanonicalHeader(f.names[j]);
        if c in ColMap {
          assert x == ColMap[c];
        } else {
          assert x == c;
        }
      }
    }
  }

  /** Normalising is idempotent: a normalised frame is its own normal form. */
  lemma {:induction false} NormalizeIdempotent(f: Frame)
    requires f.Valid()
    ensures NormalizeColumns(NormalizeColumns(f)) == NormalizeColumns(f)
  {
    var g := NormalizeColumns(f);
    NormalizedHeadersSettled(f);
    var renamed := RenamedHeaders(g.names);
    forall j | 0 <= j < |g.names|
      ensures renamed[j] == g.names[j]
    {
      CanonicalHeaderFixed(g.names[j]);
    }
    assert renamed == g.names;
    assert Fill(renamed, Required) == renamed;
  }

  /** The alias "phone number" never fires: a canonical header holds no space. */
  lemma PhoneNumberAliasUnreachable(h: string)
    ensures "phone number" in ColMap
    ensures CanonicalHeader(h) != "phone number"
  {
    var c := CanonicalHeader(h);
    if |c| == |"phone number"| {
      assert c[5] != "phone number"[5];
    }
  }

  lemma PhoneNumberStripped() ensures Strip("Phone Number") == "Phone Number" {
    StripUnchanged("Phone Number");
  }

  lemma PhoneNumberLowered() ensures Lower("Phone Number") == "phone number" {
  }

  lemma PhoneNumberUnderscored() ensures ReplaceSpaces("phone number") == "phone_number" {
  }

  /** A "Phone Number" header becomes `phone_number`, which is no alias. */
  lemma PhoneNumberHeader()
    ensures Rename(CanonicalHeader("Phone Number")) == "phone_number"
  {
    PhoneNumberStripped();
    PhoneNumberLowered();
    PhoneNumberUnderscored();
    PhoneNumberNoAlias();
  }

  /** `phone_number` differs from the alias "phone number" in its sixth character. */
  lemma PhoneNumberNoAlias() ensures "phone_number" !in ColMap {
    assert "phone_number"[5] != "phone number"[5];
  }

  /** A required field that no header is renamed to is added as a column of nulls. */
  lemma MissingFieldAdded(f: Frame, x: string)
    requires f.Valid() && x in Required
    requires forall j :: 0 <= j < |f.names| ==> Rename(CanonicalHeader(f.names[j])) != x
    ensures Column(NormalizeColumns(f), x) == Nulls(f.height)
  {
    var renamed := Frame(RenamedHeaders(f.names), f.columns, f.height);
    assert x !in renamed.names;
  }

  /** So a "Phone Number" column keeps a name of its own and the phone field is added empty. */
  lemma PhoneNumberColumnStaysApart(f: Frame)
    requires f.Valid() && f.names == ["Phone Number"]
    ensures NormalizeColumns(f).names[0] == "phone_number"
    ensures Column(NormalizeColumns(f), "phone") == Nulls(f.height)
  {
    PhoneNumberHeader();
    MissingFieldAdded(f, "phone");
  }
}
