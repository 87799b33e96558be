/** extract_crm.py: a CRM export sheet read into the canonical schema. */
module ExtractCrm {
  import opened Wrappers
  import opened Text
  import opened Table
  import opened Sheets

  /** The header map `colmap` of `parse_crm_export`. */
  const CrmColMap: map<string, string> := map[
    "account" := "company_name",
    "company" := "company_name",
    "name" := "contact_name",
    "contact" := "contact_name",
    "email" := "email",
    "mail" := "email",
    "phone" := "phone",
    "mobile" := "phone",
    "website" := "website",
    "url" := "website",
    "city" := "city",
    "state" := "state",
    "country" := "country",
    "title" := "job_title",
    "designation" := "job_title",
    "industry" := "industry",
    "notes" := "notes",
    "description" := "notes"
  ]

  /** The stamp appended to every row's notes. */
  const CrmStamp := " | source=crm_export"

  lemma CrmColMapSettled()
    ensures Settled(CrmColMap)
  {
    CrmTargetsAreFields();
    CrmFieldKeysFixed();
    SettledByFields(CrmColMap);
  }

  lemma CrmTargetsAreFields()
    ensures forall k :: k in CrmColMap ==> CrmColMap[k] in Fields
  {
    forall k | k in CrmColMap
      ensures CrmColMap[k] in Fields
    {
    }
  }

  lemma CrmFieldKeysFixed()
    ensures forall v :: v in Fields && v in CrmColMap ==> CrmColMap[v] == v
  {
    assert CrmColMap["email"] == "email";
    assert CrmColMap["phone"] == "phone";
    assert CrmColMap["website"] == "website";
    assert CrmColMap["city"] == "city";
    assert CrmColMap["state"] == "state";
    assert CrmColMap["country"] == "country";
    assert CrmColMap["industry"] == "industry";
    assert CrmColMap["notes"] == "notes";
  }

  /** `parse_crm_export` on a sheet already read into a frame. */
  function CrmExport(f: Frame): (rows: seq<Record>)
    requires f.Valid()
  {
    Extracted(f, CrmColMap, CrmStamp)
  }

  /** `parse_crm_export`, lines 10-38, performed step by step. */
  method ParseCrmExport(f: Frame) returns (rows: seq<Record>)
    requires f.Valid()
    ensures rows == CrmExport(f)
  {
    CrmColMapSettled();
    rows := Extract(f, CrmColMap, CrmStamp);
  }

  /** One row per source row; each canonical field read from the first column whose stripped,
      lower-cased header the map sends to it (null if none); notes stamped after the old notes. */
  lemma CrmExportRows(f: Frame)
    requires f.Valid()
    ensures |CrmExport(f)| == f.height
    ensures forall i :: 0 <= i < f.height ==>
              var g := Mapped(f, CrmColMap);
              && CrmExport(f)[i].companyName == Column(g, "company_name")[i]
              && CrmExport(f)[i].email == Column(g, "email")[i]
              && CrmExport(f)[i].website == Column(g, "website")[i]
              && CrmExport(f)[i].jobTitle == Column(g, "job_title")[i]
              && CrmExport(f)[i].notes == Some(OrEmpty(Column(g, "notes")[i]) + CrmStamp)
  {
  }

  /** Every row's notes end with the CRM stamp, whatever the source held. */
  lemma CrmNotesStamped(f: Frame, i: nat)
    requires f.Valid() && i < f.height
    ensures CrmExport(f)[i].notes.Some?
    ensures EndsWith(CrmExport(f)[i].notes.value, CrmStamp)
  {
    var g := Mapped(f, CrmColMap);
    assert CrmExport(f)[i] == ReadRecord(g, i, CrmStamp);
    var n := OrEmpty(Column(g, "notes")[i]) + CrmStamp;
    assert CrmExport(f)[i].notes == Some(n);
    assert n[|n| - |CrmStamp|..] == CrmStamp;
  }

  /** Every key of the CRM map is a lower-case word. */
  lemma CrmKeysAreWords()
    ensures forall k :: k in CrmColMap ==> IsFieldName(k)
  {
    CompanyKeysAreWords();
    ContactKeysAreWords();
    PlaceKeysAreWords();
  }

  lemma CompanyKeysAreWords()
    ensures IsFieldName("account") && IsFieldName("company") && IsFieldName("website")
    ensures IsFieldName("url") && IsFieldName("industry") && IsFieldName("notes")
  {
    assert IsFieldName("account");
    assert IsFieldName("company");
    assert IsFieldName("website");
    assert IsFieldName("url");
    assert IsFieldName("industry");
    assert IsFieldName("notes");
  }

  lemma ContactKeysAreWords()
    ensures IsFieldName("name") && IsFieldName("contact") && IsFieldName("email")
    ensures IsFieldName("mail") && IsFieldName("phone") && IsFieldName("mobile")
  {
    assert IsFieldName("name");
    assert IsFieldName("contact");
    assert IsFieldName("email");
    assert IsFieldName("mail");
    assert IsFieldName("phone");
    assert IsFieldName("mobile");
  }

  lemma PlaceKeysAreWords()
    ensures IsFieldName("city") && IsFieldName("state") && IsFieldName("country")
    ensures IsFieldName("title") && IsFieldName("designation") && IsFieldName("description")
  {
    assert IsFieldName("city");
    assert IsFieldName("state");
    assert IsFieldName("country");
    assert IsFieldName("title");
    assert IsFieldName("designation");
    assert IsFieldName("description");
  }

  /** A header spelled as a key of the map is renamed to that key's field: account and company
      give the company, url the website, title and designation the job title, description the notes. */
  lemma CrmAliases()
    ensures forall k :: k in CrmColMap ==> Target(CrmColMap, k) == CrmColMap[k]
  {
    CrmKeysAreWords();
    forall k | k in CrmColMap
      ensures Target(CrmColMap, k) == CrmColMap[k]
    {
      FieldNameKey(k);
    }
  }

  lemma AccountStripped() ensures Strip(" Account ") == "Account" {
    StripPadded("Account");
  }

  lemma AccountLowered() ensures Lower("Account") == "account" {
  }

  lemma AccountIsCompany() ensures "account" in CrmColMap && CrmColMap["account"] == "company_name" {
  }

  /** A padded, capitalised " Account " header is matched on its stripped, lower-cased form. */
  lemma AccountHeaderMapped(f: Frame)
    requires f.names == [" Account "]
    ensures MappedNames(f, CrmColMap) == ["company_name"]
  {
    AccountStripped();
    AccountLowered();
    AccountIsCompany();
    MappedHeader(f, CrmColMap);
  }

  /** So such a column fills the company and nothing else: the other fields are null and the
      notes hold only the stamp. */
  lemma CrmAccountColumn(f: Frame, i: nat)
    requires f.Valid() && f.names == [" Account "] && i < f.height
    ensures var rows := CrmExport(f);
            && rows[i].companyName == f.columns[0][i]
            && rows[i].contactName == None && rows[i].email == None
            && rows[i].notes == Some(CrmStamp)
  {
    AccountHeaderMapped(f);
    var g := Mapped(f, CrmColMap);
    CompanyOnly(g);
    assert CrmExport(f)[i] == ReadRecord(g, i, CrmStamp);
    NullNotesStamped(CrmStamp);
  }

  /** A frame whose one column is the company: contact, email and notes read as nulls. */
  lemma CompanyOnly(g: Frame)
    requires g.Valid() && g.names == ["company_name"]
    ensures && Column(g, "company_name") == g.columns[0]
            && Column(g, "contact_name") == Nulls(g.height)
            && Column(g, "email") == Nulls(g.height)
            && Column(g, "notes") == Nulls(g.height)
  {
    assert "contact_name" !in g.names && "email" !in g.names && "notes" !in g.names;
  }
}
