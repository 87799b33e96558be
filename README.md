# Lead pipeline model

This is a Dafny model of the core of the EPS lead-generation tool. The tool takes leads from
spreadsheets, CRM exports and event lists (Excel, CSV or PDF). It then:

1. maps each table onto one canonical eleven-field lead record;
2. normalises the headers;
3. removes duplicate leads per company and email, keeping the most complete row;
4. gives every lead a rule-based score from 0 to 100 and a customer type;
5. classifies the lead into a HubSpot lifecycle stage;
6. keeps the leads at or above a minimum score;
7. projects them onto the seventeen columns of a HubSpot import.

A record is a datatype of nullable strings (`Option<string>`, with `None` for null). A table
is held either as a column-wise `Frame` (header names, columns and a row count) or, once its
canonical fields are selected, as a `seq<Record>`.

Modules follow the source files:

| module | file |
|---|---|
| `Text` | the Python string operations the code relies on |
| `Table` | records and frames |
| `Utils` | `utils.py` |
| `Sheets` | the rename/fill/stamp steps that both spreadsheet readers share |
| `ExtractCrm` | `extract_crm.py` |
| `ExtractEvent` | `extract_event.py` |
| `Dedupe` | `modules/dedupe.py` |
| `Score` | `score.py` |
| `ExportHubspot` | `export_hubspot.py` |
| `Pipeline` | the stage order of `app.py` |

The code has four kinds of loops, and each is a Dafny `method` proved equal to a specification function:

- the header-renaming and column-filling loops of the readers;
- the nested page/line loop of the PDF reader;
- the per-name scoring loops;
- the early-return scans for the region and the customer type.

Whole-table expressions are functions, with lemmas.

## Model

| member | source | states |
|---|---|---|
| Text.Strip | utils.py:23 | the result is no longer than the input and neither starts nor ends with whitespace |
| Text.StripInfix | utils.py:23 | the stripped text is an infix of the input, and everything cut off on either side is whitespace |
| Text.StripIdempotent | modules/dedupe.py:8 | stripping twice is stripping once |
| Text.Lower | utils.py:23 | same length, every character lower-cased one for one |
| Text.LowerConcat | score.py:44 | lower-casing distributes over concatenation |
| Text.ReplaceSpaces | utils.py:23 | same length, every space replaced by `_` and nothing else changed |
| Text.Contains | score.py:45 | `needle in hay` holds exactly when the needle starts at some position of the haystack |
| Text.ContainsAny | score.py:43-45 | true exactly when some keyword occurs in the lower-cased text |
| Text.ContainsAnyIgnoresCase | score.py:44 | lower-casing the text beforehand never changes the outcome |
| Text.JoinSplit | extract_event.py:44 | joining the pieces of a split with the separator gives back the text |
| Text.SplitTwo | extract_event.py:44 | two separator-free pieces joined by a one-character separator split back into exactly those two |
| Table.Column | extract_crm.py:37 | a present column is the first column of that name; an absent one reads as all nulls; the length is the row count |
| Table.SetColumn | extract_crm.py:37 | the named column is replaced; every other column and the row count are unchanged |
| Table.Fill | utils.py:25-28 | the old names stay first and in order; every required name is present; each added name is required and was missing; nothing is added when nothing is missing |
| Table.AddMissing | utils.py:26-28 | the existing columns are unchanged; each added column is all nulls; the row count is kept |
| Table.ToRecords | extract_crm.py:38 | one record per row, each field read from its canonical column |
| Utils.CanonicalHeader | utils.py:23 | the canonical header has no upper-case letter, no space and no whitespace at either end |
| Utils.CanonicalHeaderFixed | utils.py:23 | a header already in canonical form is left unchanged |
| Utils.RenamedHeaders | utils.py:23-24 | each header is canonicalised, then renamed when it is a key of the alias table; the count is kept |
| Utils.NormalizeColumns | utils.py:21-29 | renamed headers stay in place; the cells and the row count are unchanged; all eleven required fields are present; each added column is a missing required field and is all nulls |
| Utils.RequiredNotAliases | utils.py:4-25 | no required field is a key of the alias table |
| Utils.ColMapTargetsRequired | utils.py:4-25 | every alias target is a required field |
| Utils.NormalizedHeadersSettled | utils.py:23-28 | every header of a normalised frame is canonical and is not an alias |
| Utils.NormalizeIdempotent | utils.py:21-29 | normalising a normalised frame changes nothing |
| Utils.PhoneNumberAliasUnreachable | utils.py:11-24 | "phone number" is an alias key, yet no canonical header equals it |
| Utils.PhoneNumberColumnStaysApart | utils.py:11-28 | a "Phone Number" column becomes `phone_number`, and the phone field is added as all nulls |
| Sheets.TargetIdempotent | extract_crm.py:31-34 | with a settled map, renaming an already renamed header changes nothing |
| Sheets.SettledByFields | extract_crm.py:11-34 | a map whose targets are canonical fields, each mapped to itself when it is a key, is settled |
| Sheets.RenameAll | extract_crm.py:34 | every column carrying the old name gets the new one, and no other column changes |
| Sheets.RenameColumns | extract_crm.py:31-34 | after the renaming loop, each column carries the map's target for its own stripped, lower-cased header |
| Sheets.MappedNames | extract_crm.py:10-34 | each header is stripped and then mapped |
| Sheets.Stamped | extract_crm.py:37 | each note becomes its old text, or "" when null, followed by the stamp |
| Sheets.Extracted | extract_crm.py:35-38 | one record per source row; each field comes from the first column renamed to it, or is null; the notes are stamped |
| Sheets.Extract | extract_crm.py:10-38 | the step-by-step reader (strip, rename loop, fill loop, stamp, select) returns the `Extracted` records |
| ExtractCrm.CrmColMapSettled | extract_crm.py:11-30 | the CRM header map is settled |
| ExtractCrm.ParseCrmExport | extract_crm.py:10-38 | `parse_crm_export` on a read sheet returns the CRM `Extracted` records |
| ExtractCrm.CrmExportRows | extract_crm.py:31-38 | the row count is kept; company, email, website and job title come from the renamed columns; the notes are stamped |
| ExtractCrm.CrmNotesStamped | extract_crm.py:37 | every row's notes exist and end with " \| source=crm_export" |
| ExtractCrm.CrmAliases | extract_crm.py:11-34 | every key of the map is renamed to its target (account/company to company, url to website, description to notes, and so on) |
| ExtractCrm.AccountHeaderMapped | extract_crm.py:31-34 | a padded, capitalised " Account " header is matched on its stripped, lower-cased form and becomes `company_name` |
| ExtractCrm.CrmAccountColumn | extract_crm.py:31-38 | such a column fills only the company; contact and email are null and the notes hold just the stamp |
| ExtractEvent.EventColMapSettled | extract_event.py:13-30 | the event header map is settled |
| ExtractEvent.ParseEventSheet | extract_event.py:12-38 | the spreadsheet branch returns the event `Extracted` records |
| ExtractEvent.EventSheetRows | extract_event.py:31-38 | the row count is kept; company, contact and email come from the renamed columns; the notes are stamped " \| source=event_list" |
| ExtractEvent.EventAliases | extract_event.py:13-34 | every key of the event map (organization/organisation, designation, …) is renamed to its target |
| ExtractEvent.NotesHeaderKept | extract_event.py:13-34 | a "Notes" header keeps its name, because the event map has no "notes" key |
| ExtractEvent.EventNotesHeaderDropped | extract_event.py:31-37 | so the notes of such a sheet are lost: every row's notes hold only the stamp |
| ExtractEvent.PdfFieldsAndNotes | extract_event.py:48-50 | the fields the PDF branch fills are the canonical fields without "notes" |
| ExtractEvent.TaggedIsNote | extract_event.py:45-46 | a kept line becomes "event_pdf:" followed by a non-blank text of at least five characters |
| ExtractEvent.KeepLongLines | extract_event.py:45-46 | every stripped line of length at least 5 is tagged and kept; every note kept is such a tagged line |
| ExtractEvent.KeptLongLines | extract_event.py:44-46 | every line whose stripped form has length at least 5 yields its tagged note; every note is a tagged long line |
| ExtractEvent.KeptStep | extract_event.py:44-46 | one more line appends its note, or nothing when it is short |
| ExtractEvent.PdfNotesAreNotes | extract_event.py:42-46 | every note of every page is a tagged long line |
| ExtractEvent.PdfStep | extract_event.py:42-46 | one more page appends its own notes |
| ExtractEvent.NoteRows | extract_event.py:46-50 | one row per note, each with only that note |
| ExtractEvent.NoteRow | extract_event.py:46-50 | the row's notes are the note; every other field is null |
| ExtractEvent.FullPdfFrame | extract_event.py:47-50 | with at least one note, filling and selecting gives exactly one note row per note |
| ExtractEvent.EmptyPdfFrame | extract_event.py:47-50 | with no note, the filled frame lacks the "notes" column |
| ExtractEvent.PdfAsWrittenOutcome | extract_event.py:40-50 | the branch as written fails exactly when no line is kept; otherwise it gives the note rows of a split on backslash-n |
| ExtractEvent.PdfRowsAreNoteRows | extract_event.py:40-50 | the corrected PDF rows: each is a note row whose note is a tagged long line |
| ExtractEvent.NoteRowsAppend | extract_event.py:46 | the rows of two note lists are the rows of the first followed by the rows of the second |
| ExtractEvent.PageRows | extract_event.py:44-46 | the inner loop over one page's lines returns the note rows of the kept lines |
| ExtractEvent.ParsePdf | extract_event.py:40-50 | the nested page/line loop returns `PdfRows` |
| ExtractEvent.PdfNothingKept | extract_event.py:47-50 | in the corrected branch, no kept line gives no rows, not an error |
| ExtractEvent.LineSplitFinding | extract_event.py:44 | a two-line text splits into one piece on backslash-n, but into its two lines on a newline |
| ExtractEvent.TwoLinePageFinding | extract_event.py:43-46 | a page with two long lines gives, as written, exactly one row, holding the whole stripped page text; corrected, it gives one note row per line |
| ExtractEvent.StripJoinedLong | extract_event.py:45-46 | two lines of at least five characters each, joined by a newline, are still at least five characters long once stripped |
| ExtractEvent.BlankPdfFinding | extract_event.py:43-50 | a page without text makes the branch as written fail, while the corrected branch returns no rows |
| ExtractEvent.KindOf | extract_event.py:6-7 | a sheet exactly when the lower-cased name ends in .xlsx, .xls or .csv; a PDF exactly when it is not a sheet and ends in .pdf; otherwise unsupported |
| ExtractEvent.KindIgnoresCase | extract_event.py:6 | the kind of a file does not depend on the letter case of its name |
| ExtractEvent.EventFile | extract_event.py:6-52 | a sheet gives the sheet records, a PDF the corrected PDF rows, anything else no rows |
| ExtractEvent.ParseEventFile | extract_event.py:6-52 | `parse_event_file` returns `EventFile` |
| Dedupe.Canon | modules/dedupe.py:8 | a key field becomes the stripped, lower-cased text of the cell, with null read as "None" |
| Dedupe.CanonNone | modules/dedupe.py:8 | a null key field becomes "none" |
| Dedupe.NullIsNoneText | modules/dedupe.py:8 | a null cell and the text "None" give the same key |
| Dedupe.CanonIdempotent | modules/dedupe.py:8 | canonicalising twice is canonicalising once |
| Dedupe.Rank | modules/dedupe.py:9-11 | the rank is at most 3; it is at least 2 exactly when the email contains "@"; it is odd exactly when the website contains "." |
| Dedupe.BeforeTransitive | modules/dedupe.py:12 | the sort order (company ascending, then rank descending) is transitive |
| Dedupe.BeforeTotal | modules/dedupe.py:12 | of two rows, one sorts before the other, or they tie on company and rank |
| Dedupe.Insert | modules/dedupe.py:12 | inserting a row into the sort is a permutation of the row plus the sequence |
| Dedupe.SortRows | modules/dedupe.py:12 | the sort is a permutation of its input |
| Dedupe.SortRowsSorted | modules/dedupe.py:12 | the sort is ordered by company ascending, then by rank descending |
| Dedupe.SortStable | modules/dedupe.py:12 | rows tying on company and rank keep their input order |
| Dedupe.KeepFirst | modules/dedupe.py:13 | no two rows kept share a key; the kept keys are exactly the input keys; each kept row is the first row of its key |
| Dedupe.KeepFirstInOrder | modules/dedupe.py:13 | the kept rows are a subsequence of the input, in input order |
| Dedupe.KeepFirstSorted | modules/dedupe.py:13 | keeping the first row of every key preserves the sort order |
| Dedupe.CanonRows | modules/dedupe.py:6-8 | every row is canonicalised, in order |
| Dedupe.DedupeUnique | modules/dedupe.py:13 | no two leads share company and email, and there are no more leads than input rows |
| Dedupe.DedupeKeepsKeys | modules/dedupe.py:13 | every canonical company-and-email pair of the input is still present |
| Dedupe.DedupeFromInput | modules/dedupe.py:12-14 | every lead is a canonicalised input row; the leads come in sort order and are a subsequence of the stably sorted rows, so leads that tie keep their input order |
| Dedupe.DedupeBestRank | modules/dedupe.py:9-13 | the lead kept for a key has the highest rank among that key's input rows |
| Dedupe.CanonIsCanonText | modules/dedupe.py:8 | a canonical cell is present, has no upper-case letter and no whitespace at either end |
| Dedupe.DedupeCanonical | modules/dedupe.py:6-8 | every lead's company, email and website are present, lower-case and stripped |
| Dedupe.DedupeOneKey | modules/dedupe.py:8-13 | rows all sharing one canonical key collapse into exactly one lead, even when both fields are null |
| Score.BaseQuality | score.py:54-56 | 10 for a non-null email, 5 for a phone, 5 for a website; 0 to 20 in total |
| Score.Fit | score.py:59-74 | a multiple of 15, between 0 and 15 per listed name |
| Score.FitCountsHits | score.py:59-74 | exactly 15 for every listed name whose keywords occur, independently of the others |
| Score.FitAppend | score.py:59-74 | the points of a focus list are the sum of the points of its parts |
| Score.FitExtremes | score.py:59-74 | 15 per name exactly when all listed names match; 0 exactly when none does |
| Score.FitUnknownName | score.py:61 | a name that is not in the dictionary has no keywords and adds nothing |
| Score.FitLoop | score.py:59-74 | the per-name loop adds up to `Fit` |
| Score.RegionTag | score.py:77-83 | some tag exactly when some listed region has a hint in the haystack; the tag is the first such region in the caller's order |
| Score.RegionBonus | score.py:77-84 | the early-return scan gives 10 exactly when some region matches, else 0 |
| Score.RegionPointsTag | score.py:77-84 | the region points are 10 exactly when some region matches, and 0 exactly when there is no tag |
| Score.CustomerTypeFirstMatch | score.py:87-92 | the type is the first type, in dictionary order, with a keyword in the haystack; "Unknown" when none matches |
| Score.DetectCustomerType | score.py:87-93 | the early-return scan returns `CustomerType` |
| Score.EmailTerm | score.py:101 | -5 exactly when the email (null read as "") holds "@gmail.", "@yahoo.", "@hotmail." or "@outlook."; +5 otherwise |
| Score.DecisionPoints | score.py:96-98 | 0 or 10; 10 exactly when the lower-cased contact name (null read as "") contains one of the decision-maker words |
| Score.NullContactEarnsNothing | score.py:96 | a null contact name adds nothing |
| Score.PlantManagerEarnsTen | score.py:96-98 | the contact "Plant Manager" earns 10, since the name is lower-cased before the search |
| Score.NullEmailEarnsFive | score.py:101 | a null email earns the +5 of a corporate address |
| Score.CompetitorTerm | score.py:104-111 | -20 exactly when a competitor's name occurs in notes, website and company; 0 otherwise |
| Score.CompetitorInNotes | score.py:104-106 | a competitor's name in the notes, in any letter case, costs 20 points |
| Score.CompetitorInCompany | score.py:104-106 | a competitor's name in the company, in any letter case, costs 20 points |
| Score.BuschVacuumIsCompetitor | score.py:41-45 | notes reading "Busch Vacuum" flag a competitor and cost 20 points |
| Score.Clamp | score.py:113 | the result lies in 0..100, and a value already in range is unchanged |
| Score.ClampMonotone | score.py:113 | clipping preserves order |
| Score.LeadScore | score.py:47-113 | every lead score lies in 0..100 |
| Score.RawScoreBounds | score.py:51-111 | before clipping, the sum lies between -25 and 45 plus 15 per focus industry and per product need |
| Score.ScoreMonotoneInIndustries | score.py:59-65 | adding focus industries never lowers a score |
| Score.ScoreMonotoneInProducts | score.py:68-74 | adding product needs never lowers a score |
| Score.RowScore | score.py:51-113 | accumulating the contributions and clipping gives `LeadScore` |
| Score.ScoreLeads | score.py:47-114 | each row gets its score and its customer type; for a table without `priority_region` and `competitor_flag` columns, both tags stay null |
| Score.AssignLifecycleStage | score.py:116-123 | each row gets the stage of its score, and nothing else changes |
| Score.StageThresholds | score.py:118-121 | "salesqualifiedlead" exactly when the score is at least 80; "marketingqualifiedlead" exactly when it is 65 to 79; "lead" exactly when it is below 65 |
| Score.StageMonotone | score.py:118-121 | a higher score never gets a lower stage |
| ExportHubspot.SplitName | export_hubspot.py:7-8 | the first part has no space; a second part exists exactly when the name has a space; joining the parts gives back the name |
| ExportHubspot.SplitJoinName | export_hubspot.py:7-9 | cutting "first rest" gives back first and rest, later spaces staying in the rest |
| ExportHubspot.ExportForHubspot | export_hubspot.py:4-24 | one row per lead; fields copied under their HubSpot names; firstname is the name up to the first space and lastname the rest (null name read as ""); lastname is null for a spaceless name when any row has a space, and "" when none does; the lead source is on every row; a missing stage reads "lead"; the flag is written as text |
| ExportHubspot.ExportAsWritten | export_hubspot.py:4-8 | as written, the export fails exactly when there are no rows; otherwise it is `ExportForHubspot` |
| ExportHubspot.EmptyExportFinding | export_hubspot.py:7-8 | no rows: the export as written fails, the intended export is empty |
| ExportHubspot.NullContactEmptyFirstName | export_hubspot.py:7-8 | a null contact name gives an empty firstname |
| Pipeline.KeepAbove | app.py:63 | a row is kept exactly when it is in the table and scores at least the minimum |
| Pipeline.PassingExactly | app.py:63 | the mask's true positions are exactly the rows scoring at least the minimum |
| Pipeline.KeepAboveInOrder | app.py:63 | the kept rows are the input's rows picked at strictly increasing positions, those positions being exactly the ones scoring at least the minimum: each passing row once, in input order |
| Pipeline.KeepAboveNone | app.py:63 | rows all scoring below the minimum leave nothing kept |
| Pipeline.NoLeadKeptFinding | app.py:63-65 | when no lead reaches the minimum, nothing is kept, the export as written fails, and the intended export is empty |
| Pipeline.KeepAboveDistinct | app.py:63 | filtering keeps the companies and emails pairwise different |
| Pipeline.LeadsOf | app.py:53-57 | at most as many leads as input rows; pairwise different companies and emails; each lead has a company and an email |
| Pipeline.StagedRows | app.py:58-59 | each staged row is its lead, in order, with that lead's score, the stage of that score and null tags |
| Pipeline.ProcessAndDisplay | app.py:49-66 | nothing for a table without rows or without columns; otherwise the three tables, built from the deduplicated leads |
| Pipeline.ExportedFromKept | app.py:63-65 | every exported row comes from a staged row at or above the minimum, with its fields |
| Pipeline.KeptScoresAndStages | app.py:63-65 | exported rows keep the score and the stage of the rows they come from |
| Pipeline.KeptUnique | app.py:63-65 | the exported company-and-email pairs are pairwise different |
| Pipeline.ProcessScoresAndStages | app.py:57-65 | every exported score is between the minimum and 100, and its stage is the stage of that score |
| Pipeline.ProcessUnique | app.py:57-65 | leads with different keys give exported rows with different companies and emails |
| Pipeline.ProcessEmailsAndTags | app.py:57-65 | every staged lead has an email and so earns its 10 points; for a table without `priority_region` and `competitor_flag` columns, every export has a company, an email, a null region tag and the text "None" as its flag |
| Pipeline.ExportedScoresAndStages | app.py:53-65 | for any input table, every export scores from min_score to 100, with the stage of that score; with the default minimum of 65 there is no plain "lead", and with 80 every export is sales-qualified |
| Pipeline.ExportedUnique | app.py:53-65 | the export has no more rows than the input and never holds the same company and email twice |
| Pipeline.ExportedEmailsAndTags | app.py:53-65 | every scored lead has an email; for a table without `priority_region` and `competitor_flag` columns, every export has a company, an email, a null priority_region and competitor_flag "None" |

## Left out

- The Streamlit interface of `app.py` is left out. Its settings become parameters: the campaign (focus industries, regions, product needs), `min_score` and `lead_source`. Its preview tables and download buttons are left out.
- `modules/sync_hubspot.py` is left out: HTTP calls, tokens, retries and sleeps. `modules/extract_google.py` is left out: web search and HTML scraping. `extract_indiamart_local.py` is left out: HTML parsing. These files are not part of this model.
- File reading is left out: the CSV/Excel choice in `extract_crm.py:5-9` and `extract_event.py:8-11`, and PDF text extraction. The readers take a frame, or each page's extracted text (`None` when extraction gives none).
- pandas NaN and dtypes: a missing value is only ever `None`. The text "nan" that `astype(str)` produces for a float NaN is not modelled.
- Lower-casing and `isspace` are ASCII only. Regular expressions made only of literal alternatives (the decision-maker words, the free-mail domains) are modelled as searches for each alternative.
- Score.ScoreLeads, Pipeline.ProcessEmailsAndTags, Pipeline.ExportedEmailsAndTags: `score.py:49-50` keeps an uploaded table's own `priority_region` and `competitor_flag` columns, and `export_hubspot.py:20-21` copies them out. The model drops extra columns, so the null tags these members state hold only for input tables without those two columns.
- Columns other than the canonical fields are dropped when a frame becomes records. Helper columns count among them: `has_email`, `has_website` and `row_rank` in `modules/dedupe.py`. Extra columns of an uploaded table are not carried through the pipeline.
- Several columns sharing one name: reads take the first column of the name. pandas would return all of them.
- `score_leads` is modelled row by row rather than column by column. Each contribution depends only on its own row, so the scores are the same.
- Score.ScoreLeads: takes the customer-type table as a parameter. The pipeline passes score.py's dictionary (`CustomerTypes`).
- Score.RegionTag: `score.py:81` and `score.py:107-109` write their tags to per-row copies, which never reach the table. So the model's scored rows keep both tags null. The intended tags are the functions `RegionTag` and `CompetitorFlag`.
- Score.RegionTag: one description of the system says the first region in dictionary order wins. The code scans the caller's list; the model follows the code.
- Dedupe.DedupeOneKey: one description of the system says rows with null keys should not be treated as duplicates. The code stringifies null to "none" and so collapses them; the model follows the code.
- ExportHubspot.ExportForHubspot: the defaults of `df.get` for absent columns are modelled only for `lifecycle_stage`. In the pipeline every other column is always present.
- ExportHubspot.ExportForHubspot: on a table without rows, the source most likely fails with a KeyError at `export_hubspot.py:8`, because the name split yields no column 0. This happens whenever no lead reaches `min_score`. `ExportForHubspot` returns the intended empty export instead; `ExportAsWritten` models the failure (see Findings).
- Pipeline.ProcessAndDisplay: uses the intended export, so when no lead reaches `min_score` it returns an empty export where the source most likely raises a KeyError (`NoLeadKeptFinding`).
- A file of unsupported type returns a column-less table (`extract_event.py:51-52`). It is modelled as no records.
- The end-to-end scoring example of a single pharma lead (score 60) is not stated as a lemma.

## Findings

| source | as written | input that shows it | evidently intended | confidence | as-written member | corrected member |
|---|---|---|---|---|---|---|
| extract_event.py:44 | page text is split on the two-character string backslash-n, which extracted text does not contain | a page whose text is two lines of at least five characters, such as "Alpha Corp", a newline, then "Beta Ltd" | one row per text line, splitting on the newline character | not executed | ExtractEvent.TwoLinePageFinding | ExtractEvent.ParsePdf |
| extract_event.py:47-50 | when no line is kept, the frame built from the empty row list has no "notes" column, so selecting the eleven fields raises a KeyError | a PDF whose only page has no extractable text | an empty table with the eleven canonical columns | not executed | ExtractEvent.BlankPdfFinding | ExtractEvent.PdfNothingKept |
| export_hubspot.py:7-8 | on a table without rows, the expanded name split has no column 0, so `names[0]` raises a KeyError | a run where no lead reaches `min_score`, so the kept table has no rows | an empty export | not executed | ExportHubspot.EmptyExportFinding | ExportHubspot.ExportForHubspot |
