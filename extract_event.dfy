/** extract_event.py: an event attendee list, either a spreadsheet or a PDF. */
module ExtractEvent {
  import opened Wrappers
  import opened Text
  import opened Table
  import opened Sheets

  /** The header map `colmap` of the spreadsheet branch; unlike the CRM map it has no key for
      notes or for a url. */
  const EventColMap: map<string, string> := map[
    "company" := "company_name",
    "organization" := "company_name",
    "organisation" := "company_name",
    "name" := "contact_name",
    "contact" := "contact_name",
    "email" := "email",
    "mail" := "email",
    "phone" := "phone",
    "mobile" := "phone",
    "website" := "website",
    "city" := "city",
    "state" := "state",
    "country" := "country",
    "title" := "job_title",
    "designation" := "job_title",
    "industry" := "industry"
  ]

  /** The stamp appended to every spreadsheet row's notes. */
  const EventStamp := " | source=event_list"

  lemma EventColMapSettled()
    ensures Settled(EventColMap)
  {
    EventTargetsAreFields();
    EventFieldKeysFixed();
    SettledByFields(EventColMap);
  }

  lemma EventTargetsAreFields()
    ensures forall k :: k in EventColMap ==> EventColMap[k] in Fields
  {
    forall k | k in EventColMap
      ensures EventColMap[k] in Fields
    {
    }
  }

  lemma EventFieldKeysFixed()
    ensures forall v :: v in Fields && v in EventColMap ==> EventColMap[v] == v
  {
    assert EventColMap["email"] == "email";
    assert EventColMap["phone"] == "phone";
    assert EventColMap["website"] == "website";
    assert EventColMap["city"] == "city";
    assert EventColMap["state"] == "state";
    assert EventColMap["country"] == "country";
    assert EventColMap["industry"] == "industry";
  }

  // ---------------------------------------------------------------------------------------
  // Spreadsheet branch (lines 12-38)

  /** The spreadsheet branch on a sheet already read into a frame. */
  function EventSheet(f: Frame): (rows: seq<Record>)
    requires f.Valid()
  {
    Extracted(f, EventColMap, EventStamp)
  }

  /** The spreadsheet branch, step by step as the source performs it. */
  method ParseEventSheet(f: Frame) returns (rows: seq<Record>)
    requires f.Valid()
    ensures rows == EventSheet(f)
  {
    EventColMapSettled();
    rows := Extract(f, EventColMap, EventStamp);
  }

  /** One row per source row; each canonical field read from the first column whose stripped,
      lower-cased header the map sends to it (null if none); notes stamped after the old notes. */
  lemma EventSheetRows(f: Frame)
    requires f.Valid()
    ensures |EventSheet(f)| == f.height
    ensures forall i :: 0 <= i < f.height ==>
              var g := Mapped(f, EventColMap);
              && EventSheet(f)[i].companyName == Column(g, "company_name")[i]
              && EventSheet(f)[i].contactName == Column(g, "contact_name")[i]
              && EventSheet(f)[i].email == Column(g, "email")[i]
              && EventSheet(f)[i].notes == Some(OrEmpty(Column(g, "notes")[i]) + EventStamp)
  {
  }

  /** Every key of the event map is a lower-case word. */
  lemma EventKeysAreWords()
    ensures forall k :: k in EventColMap ==> IsFieldName(k)
  {
    OrganisationKeysAreWords();
    PersonKeysAreWords();
    LocationKeysAreWords();
  }

  lemma OrganisationKeysAreWords()
    ensures IsFieldName("company") && IsFieldName("organization") && IsFieldName("organisation")
    ensures IsFieldName("website") && IsFieldName("industry")
  {
    assert IsFieldName("company");
    assert IsFieldName("organization");
    assert IsFieldName("organisation");
    assert IsFieldName("website");
    assert IsFieldName("industry");
  }

  lemma PersonKeysAreWords()
    ensures IsFieldName("name") && IsFieldName("contact") && IsFieldName("email")
    ensures IsFieldName("mail") && IsFieldName("phone") && IsFieldName("mobile")
  {
    assert IsFieldName("name");
    assert IsFieldName("contact");
    assert IsFieldName("email");
    assert IsFieldName("mail");
    assert IsFieldName("phone");
    assert IsFieldName("mobile");
  }

  lemma LocationKeysAreWords()
    ensures IsFieldName("city") && IsFieldName("state") && IsFieldName("country")
    ensures IsFieldName("title") && IsFieldName("designation")
  {
    assert IsFieldName("city");
    assert IsFieldName("state");
    assert IsFieldName("country");
    assert IsFieldName("title");
    assert IsFieldName("designation");
  }

  /** A header spelled as a key of the map is renamed to that key's field. */
  lemma EventAliases()
    ensures forall k :: k in EventColMap ==> Target(EventColMap, k) == EventColMap[k]
  {
    EventKeysAreWords();
    forall k | k in EventColMap
      ensures Target(EventColMap, k) == EventColMap[k]
    {
      FieldNameKey(k);
    }
  }

  lemma NotesHeaderStripped() ensures Strip("Notes") == "Notes" {
    StripUnchanged("Notes");
  }

  lemma NotesHeaderLowered() ensures Lower("Notes") == "notes" {
  }

  lemma NotesNotAKey() ensures "notes" !in EventColMap {
  }

  /** A "Notes" header keeps its spelling, since the map has no key for it. */
  lemma NotesHeaderKept(f: Frame)
    requires f.names == ["Notes"]
    ensures MappedNames(f, EventColMap) == ["Notes"]
  {
    var h := f.names[0];
    assert Lower(Strip(h)) == "notes" by {
      NotesHeaderStripped();
      NotesHeaderLowered();
    }
    NotesNotAKey();
    UnmappedHeader(f, EventColMap);
    assert Strip(h) == "Notes" by {
      NotesHeaderStripped();
    }
  }

  /** So the attendees' own notes under a "Notes" header are lost: the notes column is added
      afresh as nulls and every row's notes hold only the stamp. */
  lemma EventNotesHeaderDropped(f: Frame, i: nat)
    requires f.Valid() && f.names == ["Notes"] && i < f.height
    ensures EventSheet(f)[i].notes == Some(EventStamp)
  {
    NotesHeaderKept(f);
    var g := Mapped(f, EventColMap);
    NoNotesColumn(g);
    assert EventSheet(f)[i] == ReadRecord(g, i, EventStamp);
    NullNotesStamped(EventStamp);
  }

  /** A frame whose only column is named "Notes" has no "notes" column. */
  lemma NoNotesColumn(g: Frame)
    requires g.Valid() && g.names == ["Notes"]
    ensures Column(g, "notes") == Nulls(g.height)
  {
    assert "Notes"[0] != "notes"[0];
    assert "notes" !in g.names;
  }

  // ---------------------------------------------------------------------------------------
  // PDF branch (lines 40-50)

  /** The ten fields the PDF branch adds when missing; it leaves out the notes. */
  const PdfFields := ["company_name", "contact_name", "email", "phone", "website",
                      "country", "state", "city", "industry", "job_title"]

  lemma PdfFieldsAndNotes()
    ensures Fields == PdfFields + ["notes"]
    ensures "notes" !in PdfFields
  {
  }

  /** The line prefix of a PDF row's notes. */
  const PdfTag := "event_pdf:"

  /** The shortest stripped line kept. */
  const MinLine := 5

  /** `page.extract_text() or ""`: a page with no text layer reads as the empty string. */
  function PageText(page: Option<string>): string {
    page.GetOr("")
  }

  /** A kept line's notes: the tag followed by the stripped line. */
  function Tagged(line: string): string {
    PdfTag + line
  }

  /** What every PDF row's notes look like: the tag, then a stripped line of at least five
      characters. */
  ghost predicate IsNote(n: string) {
    && |n| >= |PdfTag| + MinLine
    && n[..|PdfTag|] == PdfTag
    && Strip(n[|PdfTag|..]) == n[|PdfTag|..]
  }

  lemma TaggedIsNote(line: string)
    requires |Strip(line)| >= MinLine
    ensures IsNote(Tagged(Strip(line)))
  {
    var n := Tagged(Strip(line));
    assert n[|PdfTag|..] == Strip(line);
    StripIdempotent(line);
  }

  /** The tagged lines among already stripped ones that have at least five characters, in order. */
  function Keep(stripped: seq<string>): (notes: seq<string>)
    ensures |notes| <= |stripped|
    decreases |stripped|
  {
    if stripped == [] then []
    else
      var p := Keep(stripped[..|stripped| - 1]);
      var s := stripped[|stripped| - 1];
      if |s| < MinLine then p
      else p + [Tagged(s)]
  }

  /** Every line of at least five characters is kept, tagged, and every note kept is such a line. */
  lemma {:induction false} KeepLongLines(stripped: seq<string>)
    ensures forall k :: 0 <= k < |stripped| && |stripped[k]| >= MinLine ==> Tagged(stripped[k]) in Keep(stripped)
    ensures forall n :: n in Keep(stripped) ==>
              exists k :: 0 <= k < |stripped| && |stripped[k]| >= MinLine && n == Tagged(stripped[k])
    decreases |stripped|
  {
    if stripped != [] {
      var init := stripped[..|stripped| - 1];
      var s := stripped[|stripped| - 1];
      KeepLongLines(init);
      assert stripped == init + [s];
      KeepSnoc(init, s);
      var notes := Keep(stripped);
      forall n | n in notes
        ensures exists k :: 0 <= k < |stripped| && |stripped[k]| >= MinLine && n == Tagged(stripped[k])
      {
        if n in Keep(init) {
          var k :| 0 <= k < |init| && |init[k]| >= MinLine && n == Tagged(init[k]);
          assert stripped[k] == init[k];
        } else {
          assert |s| >= MinLine && n == Tagged(stripped[|stripped| - 1]);
        }
      }
      forall k | 0 <= k < |stripped| && |stripped[k]| >= MinLine
        ensures Tagged(stripped[k]) in notes
      {
        if k < |init| {
          assert stripped[k] == init[k];
        }
      }
    }
  }

  /** Each line stripped (`line.strip()`). */
  function StrippedLines(lines: seq<string>): (r: seq<string>)
    ensures |r| == |lines| && forall k :: 0 <= k < |lines| ==> r[k] == Strip(lines[k])
  {
    seq(|lines|, k requires 0 <= k < |lines| => Strip(lines[k]))
  }

  /** The notes of the rows kept from a page's lines, in order: every line whose stripped form
      has at least five characters, tagged; shorter lines are skipped. */
  function KeptNotes(lines: seq<string>): (notes: seq<string>)
    ensures |notes| <= |lines|
  {
    Keep(StrippedLines(lines))
  }

  /** Every line whose stripped form has at least five characters yields its tagged note, and
      every note kept is of the form `IsNote` describes. */
  lemma KeptLongLines(lines: seq<string>)
    ensures forall k :: 0 <= k < |lines| && |Strip(lines[k])| >= MinLine ==> Tagged(Strip(lines[k])) in KeptNotes(lines)
    ensures forall n :: n in KeptNotes(lines) ==> IsNote(n)
  {
    var ss := StrippedLines(lines);
    KeepLongLines(ss);
    forall n | n in KeptNotes(lines)
      ensures IsNote(n)
    {
      var k :| 0 <= k < |ss| && |ss[k]| >= MinLine && n == Tagged(ss[k]);
      TaggedIsNote(lines[k]);
    }
  }

  /** One more line: its tagged form is added when it is long enough. */
  lemma KeptStep(lines: seq<string>, k: nat)
    requires k < |lines|
    ensures KeptNotes(lines[..k + 1]) == KeptNotes(lines[..k]) +
              (if |Strip(lines[k])| < MinLine then [] else [Tagged(Strip(lines[k]))])
  {
    var before := StrippedLines(lines[..k]);
    var after := StrippedLines(lines[..k + 1]);
    assert after == before + [Strip(lines[k])];
    KeptIsKeep(lines[..k]);
    KeptIsKeep(lines[..k + 1]);
    KeepSnoc(before, Strip(lines[k]));
  }

  lemma KeptIsKeep(lines: seq<string>)
    ensures KeptNotes(lines) == Keep(StrippedLines(lines))
  {
  }

  /** One more stripped line is kept, tagged, exactly when it is long enough. */
  lemma KeepSnoc(stripped: seq<string>, s: string)
    ensures Keep(stripped + [s]) == Keep(stripped) + (if |s| < MinLine then [] else [Tagged(s)])
  {
    assert (stripped + [s])[..|stripped|] == stripped;
  }

  /** The notes of all rows produced from the pages, page by page, when the page text is cut
      into lines at `sep`. */
  function PdfNotes(pages: seq<Option<string>>, sep: string): (notes: seq<string>)
    requires sep != []
    decreases |pages|
  {
    if pages == [] then []
    else PdfNotes(pages[..|pages| - 1], sep) + KeptNotes(Split(PageText(pages[|pages| - 1]), sep))
  }

  /** Every note of every page is a tagged, stripped line of at least five characters. */
  lemma {:induction false} PdfNotesAreNotes(pages: seq<Option<string>>, sep: string)
    requires sep != []
    ensures forall n :: n in PdfNotes(pages, sep) ==> IsNote(n)
    decreases |pages|
  {
    if pages != [] {
      PdfNotesAreNotes(pages[..|pages| - 1], sep);
      KeptLongLines(Split(PageText(pages[|pages| - 1]), sep));
    }
  }

  /** One more page: its kept lines follow. */
  lemma PdfStep(pages: seq<Option<string>>, p: nat, sep: string)
    requires p < |pages| && sep != []
    ensures PdfNotes(pages[..p + 1], sep) == PdfNotes(pages[..p], sep) + KeptNotes(Split(PageText(pages[p]), sep))
  {
    assert pages[..p + 1][..p] == pages[..p];
  }

  /** A row built from one kept line: only its notes are set. */
  function NoteRow(n: string): (r: Record)
    ensures r.notes == Some(n)
    ensures && r.companyName == None && r.contactName == None && r.email == None && r.phone == None
            && r.website == None && r.country == None && r.state == None && r.city == None
            && r.industry == None && r.jobTitle == None
  {
    Record(None, None, None, None, None, None, None, None, None, None, Some(n))
  }

  /** The rows built from notes, one per note, in order. */
  function NoteRows(notes: seq<string>): (rows: seq<Record>)
    ensures |rows| == |notes|
    ensures forall i :: 0 <= i < |notes| ==> rows[i] == NoteRow(notes[i])
  {
    seq(|notes|, i requires 0 <= i < |notes| => NoteRow(notes[i]))
  }

  /** With no kept line the frame has no notes column. */
  lemma EmptyPdfFrame()
    ensures !HasFields(AddMissing(Frame([], [], 0), PdfFields))
  {
    PdfFieldsAndNotes();
    var g := AddMissing(Frame([], [], 0), PdfFields);
    assert "notes" in Fields;
    assert "notes" !in g.names;
  }

  /** `pd.DataFrame(rows)` for rows that each hold only a notes entry. */
  function NotesFrame(notes: seq<string>): (df: Frame)
    ensures df.Valid() && df.names == ["notes"] && df.height == |notes|
    ensures forall i :: 0 <= i < |notes| ==> Column(df, "notes")[i] == Some(notes[i])
  {
    Frame(["notes"], [seq(|notes|, i requires 0 <= i < |notes| => Some(notes[i]))], |notes|)
  }

  /** Each of the ten added fields reads as a column of nulls in the filled note frame. */
  lemma PdfNullColumn(notes: seq<string>, x: string)
    requires x in PdfFields
    ensures var g := AddMissing(NotesFrame(notes), PdfFields);
            x in g.names && Column(g, x) == Nulls(|notes|)
  {
    PdfFieldsAndNotes();
  }

  /** The notes column survives the filling unchanged. */
  lemma PdfNotesColumn(notes: seq<string>)
    ensures var g := AddMissing(NotesFrame(notes), PdfFields);
            "notes" in g.names && Column(g, "notes") == Column(NotesFrame(notes), "notes")
  {
    var df := NotesFrame(notes);
    var g := AddMissing(df, PdfFields);
    assert df.names[0] == "notes";
    assert g.names[..1] == df.names;
    assert g.names[0] == "notes";
  }

  /** Row `i` of the filled note frame is the note row of note `i`. */
  lemma PdfRecordAt(notes: seq<string>, i: nat)
    requires i < |notes|
    ensures var g := AddMissing(NotesFrame(notes), PdfFields);
            RecordAt(g, i) == NoteRow(notes[i])
  {
    PdfNullColumn(notes, "company_name");
    PdfNullColumn(notes, "contact_name");
    PdfNullColumn(notes, "email");
    PdfNullColumn(notes, "phone");
    PdfNullColumn(notes, "website");
    PdfNullColumn(notes, "country");
    PdfNullColumn(notes, "state");
    PdfNullColumn(notes, "city");
    PdfNullColumn(notes, "industry");
    PdfNullColumn(notes, "job_title");
    PdfNotesColumn(notes);
  }

  /** With some kept line the ten added fields complete the frame, and each row holds its notes. */
  lemma FullPdfFrame(notes: seq<string>)
    ensures var g := AddMissing(NotesFrame(notes), PdfFields);
            HasFields(g) && ToRecords(g) == NoteRows(notes)
  {
    var g := AddMissing(NotesFrame(notes), PdfFields);
    assert HasFields(g) by {
      PdfFieldsAndNotes();
      PdfNotesColumn(notes);
      assert forall x :: x in PdfFields ==> x in g.names;
    }
    var rows := ToRecords(g);
    forall i | 0 <= i < |notes|
      ensures rows[i] == NoteRow(notes[i])
    {
      PdfRecordAt(notes, i);
    }
  }

  /** The PDF branch as written: the page text is cut at the two characters backslash and n
      (`"\\n"`), and a PDF from which no line is kept gives a frame without a notes column, so
      selecting the eleven fields fails. */
  function PdfAsWritten(pages: seq<Option<string>>): Result<seq<Record>, string> {
    var notes := PdfNotes(pages, "\\n");
    var df := if notes == [] then Frame([], [], 0) else NotesFrame(notes);
    var g := AddMissing(df, PdfFields);
    if HasFields(g) then Success(ToRecords(g)) else Failure("KeyError: notes")
  }

  /** The PDF branch fails exactly when no line is kept, and otherwise gives one note-only row
      per kept line of the text cut at backslash-n. */
  lemma PdfAsWrittenOutcome(pages: seq<Option<string>>)
    ensures PdfAsWritten(pages).Failure? <==> PdfNotes(pages, "\\n") == []
    ensures PdfAsWritten(pages).Success? ==> PdfAsWritten(pages).value == NoteRows(PdfNotes(pages, "\\n"))
  {
    var notes := PdfNotes(pages, "\\n");
    if notes == [] {
      EmptyPdfFrame();
    } else {
      FullPdfFrame(notes);
    }
  }

  /** The PDF branch as intended: lines end at a line feed, and a PDF with no kept line gives
      an empty table. */
  function PdfRows(pages: seq<Option<string>>): seq<Record> {
    NoteRows(PdfNotes(pages, "\n"))
  }

  /** Every row of the intended PDF branch holds only a tagged, stripped line of at least five
      characters. */
  lemma PdfRowsAreNoteRows(pages: seq<Option<string>>)
    ensures forall i :: 0 <= i < |PdfRows(pages)| ==>
              && PdfRows(pages)[i].notes.Some?
              && PdfRows(pages)[i] == NoteRow(PdfRows(pages)[i].notes.value)
              && IsNote(PdfRows(pages)[i].notes.value)
  {
    var notes := PdfNotes(pages, "\n");
    PdfNotesAreNotes(pages, "\n");
    forall i | 0 <= i < |notes|
      ensures IsNote(notes[i])
    {
      assert notes[i] in notes;
    }
  }

  /** Rows are built note by note, so appending notes appends rows. */
  lemma NoteRowsAppend(a: seq<string>, b: seq<string>)
    ensures NoteRows(a + b) == NoteRows(a) + NoteRows(b)
  {
  }

  lemma NoteRowsSnoc(notes: seq<string>, n: string)
    ensures NoteRows(notes + [n]) == NoteRows(notes) + [NoteRow(n)]
  {
  }

  /** The inner loop of the PDF branch: the rows kept from one page's lines. */
  method PageRows(lines: seq<string>) returns (rows: seq<Record>)
    ensures rows == NoteRows(KeptNotes(lines))
  {
    rows := [];
    for k := 0 to |lines|
      invariant rows == NoteRows(KeptNotes(lines[..k]))
    {
      var s := Strip(lines[k]);
      PageRowsStep(lines, k);
      if |s| >= MinLine {
        rows := rows + [NoteRow(Tagged(s))];
      }
    }
    assert lines[..|lines|] == lines;
  }

  /** One more line of the page appends its row when it is long enough. */
  lemma PageRowsStep(lines: seq<string>, k: nat)
    requires k < |lines|
    ensures NoteRows(KeptNotes(lines[..k + 1])) == NoteRows(KeptNotes(lines[..k])) +
              (if |Strip(lines[k])| < MinLine then [] else [NoteRow(Tagged(Strip(lines[k])))])
  {
    var kept := KeptNotes(lines[..k]);
    KeptStep(lines, k);
    if |Strip(lines[k])| >= MinLine {
      NoteRowsSnoc(kept, Tagged(Strip(lines[k])));
    } else {
      assert kept + [] == kept;
    }
  }

  /** The intended PDF branch, with the source's loop over pages around the loop over lines. */
  method ParsePdf(pages: seq<Option<string>>) returns (rows: seq<Record>)
    ensures rows == PdfRows(pages)
  {
    rows := [];
    for p := 0 to |pages|
      invariant rows == NoteRows(PdfNotes(pages[..p], "\n"))
    {
      var lines := Split(PageText(pages[p]), "\n");
      var page := PageRows(lines);
      PdfStep(pages, p, "\n");
      NoteRowsAppend(PdfNotes(pages[..p], "\n"), KeptNotes(lines));
      rows := rows + page;
    }
    assert pages[..|pages|] == pages;
  }

  /** A PDF without any kept line gives an empty table, where the source raises. */
  lemma PdfNothingKept(pages: seq<Option<string>>)
    requires PdfNotes(pages, "\n") == []
    ensures PdfRows(pages) == []
  {
  }

  /** Finding: a page whose text holds two lines, each free of line feeds and backslashes,
      gives one row as written, carrying both lines and the line feed between them, where the
      intended reading gives one row per line. */
  lemma {:induction false} LineSplitFinding(a: string, b: string)
    requires forall k :: 0 <= k < |a| ==> a[k] != '\n' && a[k] != '\\'
    requires forall k :: 0 <= k < |b| ==> b[k] != '\n' && b[k] != '\\'
    ensures Split(a + "\n" + b, "\\n") == [a + "\n" + b]
    ensures Split(a + "\n" + b, "\n") == [a, b]
  {
    var t := a + "\n" + b;
    forall k | 0 <= k < |t|
      ensures t[k] != '\\'
    {
      if k < |a| { assert t[k] == a[k]; }
      else if k == |a| { assert t[k] == '\n'; }
      else { assert t[k] == b[k - |a| - 1]; }
    }
    var bs := "\\n";
    assert bs[0] == '\\';
    SplitNoSeparator(t, bs);
    SplitTwo(a, b, "\n");
  }

  /** Finding, on a whole PDF: a single page holding two lines of five or more characters each
      gives exactly one row, the whole page, as written, and two rows as intended. */
  lemma TwoLinePageFinding(a: string, b: string)
    requires forall k :: 0 <= k < |a| ==> a[k] != '\n' && a[k] != '\\'
    requires forall k :: 0 <= k < |b| ==> b[k] != '\n' && b[k] != '\\'
    requires |Strip(a)| >= MinLine && |Strip(b)| >= MinLine
    ensures PdfAsWritten([Some(a + "\n" + b)]) == Success([NoteRow(Tagged(Strip(a + "\n" + b)))])
    ensures PdfRows([Some(a + "\n" + b)]) == [NoteRow(Tagged(Strip(a))), NoteRow(Tagged(Strip(b)))]
  {
    var t := a + "\n" + b;
    LineSplitFinding(a, b);
    OnePage(t, "\\n");
    OnePage(t, "\n");
    StripJoinedLong(a, b);
    KeptOne([t]);
    PdfAsWrittenOutcome([Some(t)]);
    NoteRowsOne(Tagged(Strip(t)));
    KeptTwo([a, b]);
    NoteRowsTwo(Tagged(Strip(a)), Tagged(Strip(b)));
  }

  /** Two lines with at least five characters each, joined by a line feed, still have at least
      five once stripped: the stripped text runs from inside the first to inside the second. */
  lemma StripJoinedLong(a: string, b: string)
    requires |Strip(a)| >= MinLine && |Strip(b)| >= MinLine
    ensures |Strip(a + "\n" + b)| >= MinLine
  {
    var t := a + "\n" + b;
    var r := Strip(t);
    StripInfix(a);
    StripInfix(b);
    StripInfix(t);
    var i :| IsStrippedAt(a, Strip(a), i);
    var j :| IsStrippedAt(b, Strip(b), j);
    var k :| IsStrippedAt(t, r, k);
    assert a[i] == Strip(a)[0] && !IsSpace(a[i]);
    assert b[j] == Strip(b)[0] && !IsSpace(b[j]);
    assert t[i] == a[i];
    assert t[|a| + 1 + j] == b[j];
    assert k <= i;
    assert |a| + 1 + j < k + |r|;
  }

  lemma NoteRowsOne(x: string)
    ensures NoteRows([x]) == [NoteRow(x)]
  {
  }

  lemma KeptOne(lines: seq<string>)
    requires |lines| == 1 && |Strip(lines[0])| >= MinLine
    ensures KeptNotes(lines) == [Tagged(Strip(lines[0]))]
  {
    assert KeptNotes(lines[..1]) == [Tagged(Strip(lines[0]))] by {
      KeptStep(lines, 0);
      assert lines[..0] == [];
    }
    assert lines[..1] == lines;
  }

  lemma NoteRowsTwo(x: string, y: string)
    ensures NoteRows([x, y]) == [NoteRow(x), NoteRow(y)]
  {
  }

  lemma OnePage(t: string, sep: string)
    requires sep != []
    ensures PdfNotes([Some(t)], sep) == KeptNotes(Split(t, sep))
  {
    var pages := [Some(t)];
    assert pages[..0] == [];
  }

  lemma KeptTwo(lines: seq<string>)
    requires |lines| == 2 && |Strip(lines[0])| >= MinLine && |Strip(lines[1])| >= MinLine
    ensures KeptNotes(lines) == [Tagged(Strip(lines[0])), Tagged(Strip(lines[1]))]
  {
    assert KeptNotes(lines[..1]) == [Tagged(Strip(lines[0]))] by {
      KeptStep(lines, 0);
      assert lines[..0] == [];
    }
    KeptStep(lines, 1);
    assert lines[..2] == lines;
  }

  /** Finding: a PDF whose only page has no text layer makes the branch fail as written; the
      intended branch gives an empty table. */
  lemma BlankPdfFinding()
    ensures PdfAsWritten([None]).Failure?
    ensures PdfRows([None]) == []
  {
    BlankPageNotes("\\n");
    BlankPageNotes("\n");
    PdfAsWrittenOutcome([None]);
  }

  /** A page without text yields no note, whatever the separator. */
  lemma BlankPageNotes(sep: string)
    requires sep != []
    ensures PdfNotes([None], sep) == []
  {
    OnePage("", sep);
    assert Split("", sep) == [""] by {
      assert !StartsWith("", sep);
    }
    assert KeptNotes([""]) == [] by {
      assert [""][..0] == [];
      StripUnchanged("");
    }
  }

  // ---------------------------------------------------------------------------------------
  // Dispatch (lines 5-7, 39, 51-52)

  /** What the lower-cased file name makes of an upload. */
  datatype Kind = Sheet | Pdf | Other

  /** The suffix tests on the lower-cased name are the whole specification of the dispatch; the
      ensures spell them out per kind, and `KindIgnoresCase` is the property proved about them. */
  function KindOf(name: string): (k: Kind)
    ensures k == Sheet <==> EndsWith(Lower(name), ".xlsx") || EndsWith(Lower(name), ".xls") || EndsWith(Lower(name), ".csv")
    ensures k == Pdf <==> !(EndsWith(Lower(name), ".xlsx") || EndsWith(Lower(name), ".xls") || EndsWith(Lower(name), ".csv"))
                          && EndsWith(Lower(name), ".pdf")
  {
    var n := Lower(name);
    if EndsWith(n, ".xlsx") || EndsWith(n, ".xls") || EndsWith(n, ".csv") then Sheet
    else if EndsWith(n, ".pdf") then Pdf
    else Other
  }

  /** The choice of branch ignores the case of the file name. */
  lemma KindIgnoresCase(name: string)
    ensures KindOf(Lower(name)) == KindOf(name)
  {
    LowerIsLower(name);
    LowerUnchanged(Lower(name));
  }

  /** `parse_event_file` on an upload whose sheet (`sheet`) or page texts (`pages`) have been
      read already, with the intended PDF branch; any other file gives an empty table. */
  function EventFile(name: string, sheet: Frame, pages: seq<Option<string>>): (rows: seq<Record>)
    requires sheet.Valid()
    ensures KindOf(name) == Other ==> rows == []
    ensures KindOf(name) == Sheet ==> rows == EventSheet(sheet)
    ensures KindOf(name) == Pdf ==> rows == PdfRows(pages)
  {
    match KindOf(name)
    case Sheet => EventSheet(sheet)
    case Pdf => PdfRows(pages)
    case Other => []
  }

  /** `parse_event_file`, dispatching to the step-by-step readers. */
  method ParseEventFile(name: string, sheet: Frame, pages: seq<Option<string>>) returns (rows: seq<Record>)
    requires sheet.Valid()
    ensures rows == EventFile(name, sheet, pages)
  {
    var n := Lower(name);
    if EndsWith(n, ".xlsx") || EndsWith(n, ".xls") || EndsWith(n, ".csv") {
      rows := ParseEventSheet(sheet);
    } else if EndsWith(n, ".pdf") {
      rows := ParsePdf(pages);
    } else {
      rows := [];
    }
  }
}
