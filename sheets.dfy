/** The spreadsheet mapping that the CRM-export reader (extract_crm.py:10-38) and the
    event-list reader (extract_event.py:12-38) both perform, each with its own column map
    and notes stamp. */
module Sheets {
  import opened Wrappers
  import opened Text
  import opened Table

  /** The name a header ends up with: `colmap[c.strip().lower()]` when that key exists,
      otherwise the header itself. */
  function Target(colmap: map<string, string>, c: string): string {
    var key := Lower(Strip(c));
    if key in colmap then colmap[key] else c
  }

  /** Every target of the map is its own target, so renaming a column that already
      carries a target name changes nothing. */
  ghost predicate Settled(colmap: map<string, string>) {
    forall k :: k in colmap ==> Target(colmap, colmap[k]) == colmap[k]
  }

  lemma TargetIdempotent(colmap: map<string, string>, c: string)
    requires Settled(colmap)
    ensures Target(colmap, Target(colmap, c)) == Target(colmap, c)
  {
  }

  /** A field name reads as itself once stripped and lower-cased. */
  lemma FieldNameKey(v: string)
    requires IsFieldName(v)
    ensures Lower(Strip(v)) == v
  {
    FieldNameStripped(v);
    FieldNameLowered(v);
  }

  lemma FieldNameStripped(v: string)
    requires IsFieldName(v)
    ensures Strip(v) == v
  {
    assert v != [] ==> !IsSpace(v[0]) && !IsSpace(v[|v| - 1]);
    StripUnchanged(v);
  }

  lemma FieldNameLowered(v: string)
    requires IsFieldName(v)
    ensures Lower(v) == v
  {
    assert IsLower(v);
    LowerUnchanged(v);
  }

  /** A map whose targets are canonical fields, each mapped to itself when it is a key, is settled. */
  lemma SettledByFields(colmap: map<string, string>)
    requires forall k :: k in colmap ==> colmap[k] in Fields
    requires forall v :: v in Fields && v in colmap ==> colmap[v] == v
    ensures Settled(colmap)
  {
    FieldNames();
    forall k | k in colmap
      ensures Target(colmap, colmap[k]) == colmap[k]
    {
      FieldNameKey(colmap[k]);
    }
  }

  /** `df.rename(columns={from: to}, inplace=True)`: every column named `from` is renamed. */
  function RenameAll(names: seq<string>, from: string, to: string): (r: seq<string>)
    ensures |r| == |names|
    ensures forall j :: 0 <= j < |names| ==> r[j] == if names[j] == from then to else names[j]
  {
    seq(|names|, j requires 0 <= j < |names| => if names[j] == from then to else names[j])
  }

  /** The renaming loop: each original header in turn renames every column currently carrying
      it. Because the map is settled, each column ends up under its own header's target. */
  method RenameColumns(names: seq<string>, colmap: map<string, string>) returns (out: seq<string>)
    requires Settled(colmap)
    ensures |out| == |names|
    ensures forall j :: 0 <= j < |names| ==> out[j] == Target(colmap, names[j])
  {
    out := names;
    for i := 0 to |names|
      invariant |out| == |names|
      invariant forall j :: 0 <= j < |names| ==> out[j] == Expected(names, colmap, i, j)
    {
      var c := names[i];
      var key := Lower(Strip(c));
      var next := out;
      if key in colmap {
        next := RenameAll(out, c, colmap[key]);
      }
      forall j | 0 <= j < |names|
        ensures next[j] == Expected(names, colmap, i + 1, j)
      {
        RenameStep(names, colmap, i, j, out[j]);
      }
      out := next;
    }
    forall j | 0 <= j < |names|
      ensures out[j] == Target(colmap, names[j])
    {
      assert names[..|names|] == names;
    }
  }

  /** The name of column `j` once the first `i` headers have been visited. */
  ghost function Expected(names: seq<string>, colmap: map<string, string>, i: nat, j: nat): string
    requires i <= |names| && j < |names|
  {
    if names[j] in names[..i] then Target(colmap, names[j]) else names[j]
  }

  /** Visiting header `i` moves column `j` from its expected name before the visit to its
      expected name after it. */
  lemma RenameStep(names: seq<string>, colmap: map<string, string>, i: nat, j: nat, cur: string)
    requires Settled(colmap) && i < |names| && j < |names|
    requires cur == Expected(names, colmap, i, j)
    ensures (if Lower(Strip(names[i])) in colmap && cur == names[i] then Target(colmap, names[i]) else cur)
            == Expected(names, colmap, i + 1, j)
  {
    assert names[..i + 1] == names[..i] + [names[i]];
    var visited := names[j] in names[..i];
    var now := names[j] in names[..i + 1];
    assert now <==> visited || names[j] == names[i];
    if visited {
      TargetIdempotent(colmap, names[j]);
    } else if names[j] == names[i] {
      assert cur == names[i];
    } else {
      assert cur == names[j] && !now;
    }
  }

  /** Header names after stripping (line 10) and renaming. */
  function MappedNames(f: Frame, colmap: map<string, string>): (r: seq<string>)
    ensures |r| == |f.names|
    ensures forall j :: 0 <= j < |f.names| ==> r[j] == Target(colmap, Strip(f.names[j]))
  {
    seq(|f.names|, j requires 0 <= j < |f.names| => Target(colmap, Strip(f.names[j])))
  }

  /** A one-name header list is the list of that name. */
  lemma SingleName(r: seq<string>, h: string)
    requires |r| == 1 && r[0] == h
    ensures r == [h]
  {
  }

  /** A lone header whose stripped, lower-cased form is no key of the map keeps its name. */
  lemma UnmappedHeader(f: Frame, colmap: map<string, string>)
    requires |f.names| == 1 && Lower(Strip(f.names[0])) !in colmap
    ensures MappedNames(f, colmap) == [Strip(f.names[0])]
  {
    var h := Strip(f.names[0]);
    StripIdempotent(f.names[0]);
    assert Lower(Strip(h)) !in colmap;
    assert Target(colmap, h) == h;
    var r := MappedNames(f, colmap);
    SingleName(r, h);
  }

  /** A lone header whose stripped, lower-cased form is a key of the map takes its target. */
  lemma MappedHeader(f: Frame, colmap: map<string, string>)
    requires |f.names| == 1 && Lower(Strip(f.names[0])) in colmap
    ensures MappedNames(f, colmap) == [colmap[Lower(Strip(f.names[0]))]]
  {
    var h := Strip(f.names[0]);
    StripIdempotent(f.names[0]);
    assert Target(colmap, h) == colmap[Lower(h)];
    var r := MappedNames(f, colmap);
    SingleName(r, colmap[Lower(h)]);
  }

  /** The source cells under their new names. */
  function Mapped(f: Frame, colmap: map<string, string>): (g: Frame)
    requires f.Valid()
    ensures g.Valid()
  {
    Frame(MappedNames(f, colmap), f.columns, f.height)
  }

  /** `df["notes"].fillna("") + suffix`. */
  function Stamped(c: seq<Cell>, suffix: string): (r: seq<Cell>)
    ensures |r| == |c|
    ensures forall i :: 0 <= i < |c| ==> r[i] == Some(OrEmpty(c[i]) + suffix)
  {
    seq(|c|, i requires 0 <= i < |c| => Some(OrEmpty(c[i]) + suffix))
  }

  /** A null note, stamped, is the stamp alone. */
  lemma NullNotesStamped(suffix: string)
    ensures OrEmpty(None) + suffix == suffix
  {
  }

  /** Row `i` as the reader promises it: each canonical field read from the first column renamed
      to it, null when there is none, and the notes stamped with `suffix`. */
  function ReadRecord(g: Frame, i: nat, suffix: string): Record
    requires g.Valid() && i < g.height
  {
    Record(Column(g, "company_name")[i], Column(g, "contact_name")[i], Column(g, "email")[i],
           Column(g, "phone")[i], Column(g, "website")[i], Column(g, "country")[i],
           Column(g, "state")[i], Column(g, "city")[i], Column(g, "industry")[i],
           Column(g, "job_title")[i], Some(OrEmpty(Column(g, "notes")[i]) + suffix))
  }

  /** Lines 35-38 after renaming: missing canonical fields added as nulls, the notes stamped,
      and the eleven canonical columns selected in their fixed order. */
  function Extracted(f: Frame, colmap: map<string, string>, suffix: string): (rows: seq<Record>)
    requires f.Valid()
    ensures |rows| == f.height
    ensures forall i :: 0 <= i < f.height ==> rows[i] == ReadRecord(Mapped(f, colmap), i, suffix)
  {
    var m := Mapped(f, colmap);
    var h := StampedFrame(m, suffix);
    assert HasFields(h);
    var rows := ToRecords(h);
    forall i | 0 <= i < f.height
      ensures rows[i] == ReadRecord(m, i, suffix)
    {
      StampedRecord(m, suffix, i);
    }
    rows
  }

  /** The filled and stamped frame of `Extracted`. */
  function StampedFrame(m: Frame, suffix: string): (h: Frame)
    requires m.Valid()
    ensures h.Valid() && h.height == m.height
  {
    var g := AddMissing(m, Fields);
    assert "notes" in Fields;
    SetColumn(g, "notes", Stamped(Column(g, "notes"), suffix))
  }

  /** A canonical field other than the notes reads the same after filling and stamping. */
  lemma StampedColumn(m: Frame, suffix: string, x: string)
    requires m.Valid() && x in Fields && x != "notes"
    ensures Column(StampedFrame(m, suffix), x) == Column(m, x)
  {
  }

  /** The notes after filling and stamping. */
  lemma StampedNotes(m: Frame, suffix: string, i: nat)
    requires m.Valid() && i < m.height
    ensures Column(StampedFrame(m, suffix), "notes")[i] == Some(OrEmpty(Column(m, "notes")[i]) + suffix)
  {
    var g := AddMissing(m, Fields);
    assert "notes" in Fields;
    assert Column(g, "notes") == Column(m, "notes");
  }

  /** Reading row `i` of the filled and stamped frame gives the promised record. */
  lemma StampedRecord(m: Frame, suffix: string, i: nat)
    requires m.Valid() && i < m.height
    ensures RecordAt(StampedFrame(m, suffix), i) == ReadRecord(m, i, suffix)
  {
    StampedColumn(m, suffix, "company_name");
    StampedColumn(m, suffix, "contact_name");
    StampedColumn(m, suffix, "email");
    StampedColumn(m, suffix, "phone");
    StampedColumn(m, suffix, "website");
    StampedColumn(m, suffix, "country");
    StampedColumn(m, suffix, "state");
    StampedColumn(m, suffix, "city");
    StampedColumn(m, suffix, "industry");
    StampedColumn(m, suffix, "job_title");
    StampedNotes(m, suffix, i);
  }

  /** One more required name, as `Fill` handles it. */
  lemma FillSnoc(names: seq<string>, req: seq<string>, k: nat)
    requires k < |req|
    ensures Fill(names, req[..k + 1])
            == var p := Fill(names, req[..k]); if req[k] in p then p else p + [req[k]]
  {
    assert req[..k + 1][..k] == req[..k];
  }

  /** The fill loop of lines 35-36: each required field the frame lacks is appended as a
      column of nulls. */
  method AddMissingColumns(g: Frame, req: seq<string>) returns (h: Frame)
    requires g.Valid()
    ensures h == AddMissing(g, req)
  {
    var names := g.names;
    var extra: seq<seq<Cell>> := [];
    for k := 0 to |req|
      invariant names == Fill(g.names, req[..k])
      invariant |g.names| <= |names| && extra == NullColumns(|names| - |g.names|, g.height)
    {
      FillSnoc(g.names, req, k);
      if req[k] !in names {
        NullColumnsSnoc(|names| - |g.names|, g.height);
        names := names + [req[k]];
        extra := extra + [Nulls(g.height)];
      }
    }
    assert req[..|req|] == req;
    h := Frame(names, g.columns + extra, g.height);
  }

  /** The reader itself, step by step as the source performs it. */
  method Extract(f: Frame, colmap: map<string, string>, suffix: string) returns (rows: seq<Record>)
    requires f.Valid() && Settled(colmap)
    ensures rows == Extracted(f, colmap, suffix)
  {
    var names := seq(|f.names|, j requires 0 <= j < |f.names| => Strip(f.names[j]));
    names := RenameColumns(names, colmap);
    var g := Frame(names, f.columns, f.height);
    assert g == Mapped(f, colmap);
    g := AddMissingColumns(g, Fields);
    g := SetColumn(g, "notes", Stamped(Column(g, "notes"), suffix));
    rows := ToRecords(g);
  }
}
