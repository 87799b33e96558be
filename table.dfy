/** The canonical lead record and the column-wise frames the extractors and the normaliser work on. */
module Table {
  import opened Wrappers
  import opened Text

  /** One table cell: a string or null. */
  type Cell = Option<string>

  /** One lead in the canonical schema: eleven nullable fields, in the order the extractors select them. */
  datatype Record = Record(
    companyName: Cell, contactName: Cell, email: Cell, phone: Cell, website: Cell,
    country: Cell, state: Cell, city: Cell, industry: Cell, jobTitle: Cell, notes: Cell)

  /** The canonical column names, in the order of the extractors' final selection. */
  const Fields: seq<string> :=
    ["company_name", "contact_name", "email", "phone", "website",
     "country", "state", "city", "industry", "job_title", "notes"]

  /** A name made of lower-case letters and underscores only, like every canonical field. */
  predicate IsFieldName(s: string) {
    forall i :: 0 <= i < |s| ==> 'a' <= s[i] <= 'z' || s[i] == '_'
  }

  lemma FieldNames()
    ensures forall x :: x in Fields ==> IsFieldName(x)
  {
    assert IsFieldName("company_name");
    assert IsFieldName("contact_name");
    assert IsFieldName("email");
    assert IsFieldName("phone");
    assert IsFieldName("website");
    assert IsFieldName("country");
    assert IsFieldName("state");
    assert IsFieldName("city");
    assert IsFieldName("industry");
    assert IsFieldName("job_title");
    assert IsFieldName("notes");
  }

  /** A data frame of string cells, stored column by column. `height` is the number of rows,
      which a frame has even when it has no columns. Several columns may share a name. */
  datatype Frame = Frame(names: seq<string>, columns: seq<seq<Cell>>, height: nat) {
    ghost predicate Valid() {
      |names| == |columns| && forall j :: 0 <= j < |columns| ==> |columns[j]| == height
    }
  }

  /** A column of `n` nulls (`df[col] = None`). */
  function Nulls(n: nat): (c: seq<Cell>)
    ensures |c| == n && forall i :: 0 <= i < n ==> c[i] == None
  {
    seq(n, _ => None)
  }

  /** The position of the first occurrence of `name`, or `|names|` when it does not occur. */
  function IndexOf(names: seq<string>, name: string): (k: nat)
    ensures k <= |names|
    ensures k < |names| <==> name in names
    ensures k < |names| ==> names[k] == name
    ensures forall j :: 0 <= j < k ==> names[j] != name
  {
    if names == [] then 0
    else if names[0] == name then 0
    else 1 + IndexOf(names[1..], name)
  }

  /** The first occurrence of a name is found the same way in any extension of the list. */
  lemma IndexOfPrefix(names: seq<string>, more: seq<string>, name: string)
    requires name in names
    ensures IndexOf(names + more, name) == IndexOf(names, name)
  {
    var k := IndexOf(names, name);
    var k' := IndexOf(names + more, name);
    assert (names + more)[k] == name;
    if k' < k {
      assert names[k'] == (names + more)[k'];
    }
  }

  /** `df[name]` for a column that exists: the first column carrying that name. A name that
      does not occur reads as a column of nulls. */
  function Column(f: Frame, name: string): (c: seq<Cell>)
    requires f.Valid()
    ensures |c| == f.height
    ensures name !in f.names ==> c == Nulls(f.height)
    ensures name in f.names ==> c == f.columns[IndexOf(f.names, name)]
  {
    var k := IndexOf(f.names, name);
    if k < |f.names| then f.columns[k] else Nulls(f.height)
  }

  /** `df[name] = c` for a column that exists: the first column of that name is replaced. */
  function SetColumn(f: Frame, name: string, c: seq<Cell>): (g: Frame)
    requires f.Valid() && name in f.names && |c| == f.height
    ensures g.Valid() && g.names == f.names && g.height == f.height
    ensures Column(g, name) == c
    ensures forall x :: x != name ==> Column(g, x) == Column(f, x)
  {
    var k := IndexOf(f.names, name);
    var g := Frame(f.names, f.columns[k := c], f.height);
    assert forall x :: x != name && x in f.names ==> IndexOf(f.names, x) != k;
    g
  }

  /** The column names after `for r in req: if r not in df.columns: df[r] = None`. */
  function Fill(names: seq<string>, req: seq<string>): (r: seq<string>)
    ensures |names| <= |r| && r[..|names|] == names
    ensures forall x :: x in req ==> x in r
    ensures forall j :: |names| <= j < |r| ==> r[j] in req && r[j] !in names
    ensures (forall x :: x in req ==> x in names) ==> r == names
    decreases |req|
  {
    if req == [] then names
    else
      var p := Fill(names, req[..|req| - 1]);
      var x := req[|req| - 1];
      assert forall y :: y in req ==> y in req[..|req| - 1] || y == x;
      if x in p then p else p + [x]
  }

  /** `n` columns of nulls, each `height` cells long. */
  function NullColumns(n: nat, height: nat): (cs: seq<seq<Cell>>)
    ensures |cs| == n && forall j :: 0 <= j < n ==> cs[j] == Nulls(height)
  {
    seq(n, _ => Nulls(height))
  }

  /** One more null column. */
  lemma NullColumnsSnoc(n: nat, height: nat)
    ensures NullColumns(n + 1, height) == NullColumns(n, height) + [Nulls(height)]
  {
  }

  /** The frame after adding, as a column of nulls, every name of `req` that the frame lacks. */
  function AddMissing(f: Frame, req: seq<string>): (g: Frame)
    requires f.Valid()
    ensures g.Valid() && g.height == f.height
    ensures g.names == Fill(f.names, req)
    ensures |g.columns| >= |f.columns| && g.columns[..|f.columns|] == f.columns
    ensures forall j :: |f.columns| <= j < |g.columns| ==> g.columns[j] == Nulls(f.height)
    ensures forall x :: x in f.names ==> Column(g, x) == Column(f, x)
    ensures forall x :: x in req && x !in f.names ==> Column(g, x) == Nulls(f.height)
  {
    var names := Fill(f.names, req);
    var g := Frame(names, f.columns + NullColumns(|names| - |f.names|, f.height), f.height);
    forall x | x in f.names
      ensures Column(g, x) == Column(f, x)
    {
      PaddedColumnKept(f, g, x);
    }
    g
  }

  /** Appending columns after a frame's own leaves every name it had reading the same column. */
  lemma PaddedColumnKept(f: Frame, g: Frame, x: string)
    requires f.Valid() && g.Valid() && g.height == f.height && x in f.names
    requires |g.names| >= |f.names| && g.names[..|f.names|] == f.names
    requires |g.columns| >= |f.columns| && g.columns[..|f.columns|] == f.columns
    ensures Column(g, x) == Column(f, x)
  {
    assert g.names == f.names + g.names[|f.names|..];
    IndexOfPrefix(f.names, g.names[|f.names|..], x);
    assert g.columns[IndexOf(f.names, x)] == f.columns[IndexOf(f.names, x)];
  }

  /** Every canonical field is a column of `f`. */
  predicate HasFields(f: Frame) {
    forall x :: x in Fields ==> x in f.names
  }

  /** Row `i` of `df[Fields]`. */
  function RecordAt(f: Frame, i: nat): Record
    requires f.Valid() && i < f.height
  {
    Record(Column(f, "company_name")[i], Column(f, "contact_name")[i], Column(f, "email")[i],
           Column(f, "phone")[i], Column(f, "website")[i], Column(f, "country")[i],
           Column(f, "state")[i], Column(f, "city")[i], Column(f, "industry")[i],
           Column(f, "job_title")[i], Column(f, "notes")[i])
  }

  /** `df[Fields]` read as records, one per row; selecting a column the frame lacks raises, so
      the frame must have all of them. */
  function ToRecords(f: Frame): (rows: seq<Record>)
    requires f.Valid() && HasFields(f)
    ensures |rows| == f.height
    ensures forall i :: 0 <= i < f.height ==> rows[i] == RecordAt(f, i)
  {
    seq(f.height, i requires 0 <= i < f.height => RecordAt(f, i))
  }
}
