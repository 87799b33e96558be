/** modules/dedupe.py: one lead per company and email, preferring the most complete row. */
module Dedupe {
  import opened Wrappers
  import opened Text
  import opened Table

  // ---------------------------------------------------------------------------------------
  // Canonical keys (lines 6-8)

  /** `astype(str).str.strip().str.lower()` on one cell: a null becomes the text "none". */
  function Canon(c: Cell): (r: Cell)
    ensures r.Some? && r.value == Lower(Strip(Format(c)))
  {
    Some(Lower(Strip(Format(c))))
  }

  lemma NoneStripped() ensures Strip("None") == "None" {
    StripUnchanged("None");
  }

  lemma NoneLowered() ensures Lower("None") == "none" {
  }

  /** A null company, email or website becomes the text "none", like any other key. */
  lemma CanonNone()
    ensures Canon(None) == Some("none")
  {
    NoneStripped();
    NoneLowered();
  }

  /** A canonical cell is its own canonical form. */
  lemma CanonIdempotent(c: Cell)
    ensures Canon(Canon(c)) == Canon(c)
  {
    var s := Strip(Format(c));
    var l := Lower(s);
    LowerCharFacts(if s == [] then 'a' else s[0]);
    LowerCharFacts(if s == [] then 'a' else s[|s| - 1]);
    StripUnchanged(l);
    LowerIsLower(s);
    LowerUnchanged(l);
  }

  /** A present text without upper-case letters and without whitespace at either end. */
  ghost predicate IsCanonText(c: Cell) {
    c.Some? && IsLower(c.value) && Strip(c.value) == c.value
  }

  /** Every canonical cell is such a text. */
  lemma CanonIsCanonText(c: Cell)
    ensures IsCanonText(Canon(c))
  {
    CanonIdempotent(c);
    LowerIsLower(Strip(Format(c)));
  }

  /** The row with its company, email and website canonicalised; nothing else changes. */
  function CanonRow(r: Record): Record {
    r.(companyName := Canon(r.companyName), email := Canon(r.email), website := Canon(r.website))
  }

  /** The text of a key cell (every canonical cell has one). */
  function KeyText(c: Cell): string {
    c.GetOr("")
  }

  // ---------------------------------------------------------------------------------------
  // Row rank (lines 9-11)

  /** `row_rank`: two points for an email holding "@", one for a website holding a dot. */
  function Rank(r: Record): (k: nat)
    ensures k <= 3
    ensures k >= 2 <==> r.email.Some? && Contains(r.email.value, "@")
    ensures k % 2 == 1 <==> r.website.Some? && Contains(r.website.value, ".")
  {
    (if r.email.Some? && Contains(r.email.value, "@") then 2 else 0)
      + (if r.website.Some? && Contains(r.website.value, ".") then 1 else 0)
  }

  // ---------------------------------------------------------------------------------------
  // Sorting by company ascending, rank descending (line 12)

  /** Python's `<` on strings: code point by code point, a proper prefix first. */
  function LexLess(a: string, b: string): bool
    decreases |a|
  {
    if a == [] then b != []
    else if b == [] then false
    else if a[0] != b[0] then a[0] < b[0]
    else LexLess(a[1..], b[1..])
  }

  lemma {:induction false} LexIrreflexive(a: string)
    ensures !LexLess(a, a)
    decreases |a|
  {
    if a != [] {
      LexIrreflexive(a[1..]);
    }
  }

  lemma {:induction false} LexTransitive(a: string, b: string, c: string)
    requires LexLess(a, b) && LexLess(b, c)
    ensures LexLess(a, c)
    decreases |a|
  {
    if a != [] && b != [] && c != [] && a[0] == b[0] && b[0] == c[0] {
      LexTransitive(a[1..], b[1..], c[1..]);
    }
  }

  lemma {:induction false} LexTotal(a: string, b: string)
    ensures a == b || LexLess(a, b) || LexLess(b, a)
    decreases |a|
  {
    if a != [] && b != [] && a[0] == b[0] {
      LexTotal(a[1..], b[1..]);
      if a[1..] == b[1..] {
        assert a == [a[0]] + a[1..] && b == [b[0]] + b[1..];
      }
    }
  }

  /** The sort key of a row: its company text and its rank. */
  function Company(r: Record): string {
    KeyText(r.companyName)
  }

  /** `a` sorts strictly before `b`: a smaller company, or the same company and a higher rank. */
  predicate Before(a: Record, b: Record) {
    LexLess(Company(a), Company(b)) || (Company(a) == Company(b) && Rank(a) > Rank(b))
  }

  lemma BeforeIrreflexive(a: Record)
    ensures !Before(a, a)
  {
    LexIrreflexive(Company(a));
  }

  lemma BeforeTransitive(a: Record, b: Record, c: Record)
    requires Before(a, b) && Before(b, c)
    ensures Before(a, c)
  {
    if LexLess(Company(a), Company(b)) && LexLess(Company(b), Company(c)) {
      LexTransitive(Company(a), Company(b), Company(c));
    }
  }

  /** Rows neither of which sorts before the other share company and rank. */
  lemma BeforeTotal(a: Record, b: Record)
    ensures !Before(a, b) && !Before(b, a) ==> Company(a) == Company(b) && Rank(a) == Rank(b)
  {
    LexTotal(Company(a), Company(b));
  }

  /** "May precede" (`!Before(b, a)`) is transitive. */
  lemma NotBeforeTransitive(a: Record, b: Record, c: Record)
    requires !Before(b, a) && !Before(c, b)
    ensures !Before(c, a)
  {
    var ca, cb, cc := Company(a), Company(b), Company(c);
    LexTotal(ca, cb);
    LexTotal(cb, cc);
    if LexLess(cc, ca) {
      if LexLess(ca, cb) {
        LexTransitive(cc, ca, cb);
        if LexLess(cb, cc) {
          LexTransitive(cb, cc, cb);
          LexIrreflexive(cb);
        }
      } else if LexLess(cb, cc) {
        LexTransitive(cb, cc, ca);
        LexIrreflexive(ca);
        if ca != cb {
          LexTransitive(ca, cb, ca);
        }
      }
    }
  }

  /** Every later row may follow every earlier one. */
  ghost predicate Sorted(s: seq<Record>) {
    forall i, j :: 0 <= i < j < |s| ==> !Before(s[j], s[i])
  }

  /** `x` placed in front of the first row it does not sort after. */
  function Insert(x: Record, s: seq<Record>): (r: seq<Record>)
    ensures |r| == |s| + 1
    ensures multiset(r) == multiset(s) + multiset{x}
  {
    if s == [] then [x]
    else
      assert s == [s[0]] + s[1..];
      if Before(s[0], x) then [s[0]] + Insert(x, s[1..]) else [x] + s
  }

  lemma {:induction false} InsertSorted(x: Record, s: seq<Record>)
    requires Sorted(s)
    ensures Sorted(Insert(x, s))
    decreases |s|
  {
    if s == [] {
    } else if Before(s[0], x) {
      InsertSorted(x, s[1..]);
      var r := Insert(x, s);
      var t := Insert(x, s[1..]);
      assert r == [s[0]] + t;
      forall j | 0 < j < |r|
        ensures !Before(r[j], s[0])
      {
        assert r[j] in multiset(t);
        if r[j] == x {
          if Before(x, s[0]) {
            BeforeTransitive(x, s[0], x);
            BeforeIrreflexive(x);
          }
        } else {
          assert r[j] in multiset(s[1..]);
          var k :| 0 <= k < |s[1..]| && s[1..][k] == r[j];
          assert s[k + 1] == r[j];
        }
      }
    } else {
      var r := Insert(x, s);
      assert r == [x] + s;
      forall j | 0 < j < |r|
        ensures !Before(r[j], x)
      {
        if j > 1 {
          NotBeforeTransitive(x, s[0], s[j - 1]);
        }
      }
    }
  }

  /** The rows stably sorted by company ascending and rank descending. */
  function SortRows(s: seq<Record>): (r: seq<Record>)
    ensures |r| == |s|
    ensures multiset(r) == multiset(s)
    decreases |s|
  {
    if s == [] then []
    else
      assert s == [s[0]] + s[1..];
      Insert(s[0], SortRows(s[1..]))
  }

  lemma {:induction false} SortRowsSorted(s: seq<Record>)
    ensures Sorted(SortRows(s))
    decreases |s|
  {
    if s != [] {
      SortRowsSorted(s[1..]);
      InsertSorted(s[0], SortRows(s[1..]));
    }
  }

  /** The rows of `s` with company `c` and rank `k`, in their order in `s`. */
  function Group(s: seq<Record>, c: string, k: nat): (g: seq<Record>)
    ensures |g| <= |s|
    decreases |s|
  {
    if s == [] then []
    else (if Company(s[0]) == c && Rank(s[0]) == k then [s[0]] else []) + Group(s[1..], c, k)
  }

  /** The group of a row put in front of a sequence. */
  lemma GroupCons(a: Record, t: seq<Record>, c: string, k: nat)
    ensures Group([a] + t, c, k) == (if Company(a) == c && Rank(a) == k then [a] else []) + Group(t, c, k)
  {
    var s := [a] + t;
    assert s[0] == a && s[1..] == t;
  }

  /** Two prefixes of which one is empty can be swapped. */
  lemma SwapEmpty<T>(a: seq<T>, b: seq<T>, r: seq<T>)
    requires a == [] || b == []
    ensures a + (b + r) == b + (a + r)
  {
    if a == [] {
      assert a + (b + r) == b + r;
      assert a + r == r;
    } else {
      assert b + r == r;
      assert b + (a + r) == a + r;
    }
  }

  lemma {:induction false} InsertGroup(x: Record, s: seq<Record>, c: string, k: nat)
    ensures Group(Insert(x, s), c, k) ==
              (if Company(x) == c && Rank(x) == k then [x] else []) + Group(s, c, k)
    decreases |s|
  {
    if s == [] {
      assert Insert(x, s) == [x] + [];
      GroupCons(x, [], c, k);
    } else if Before(s[0], x) {
      var t := Insert(x, s[1..]);
      var rest := Group(s[1..], c, k);
      var h0 := if Company(s[0]) == c && Rank(s[0]) == k then [s[0]] else [];
      var hx := if Company(x) == c && Rank(x) == k then [x] else [];
      assert Group(Insert(x, s), c, k) == h0 + Group(t, c, k) by {
        assert Insert(x, s) == [s[0]] + t;
        GroupCons(s[0], t, c, k);
      }
      assert Group(t, c, k) == hx + rest by {
        InsertGroup(x, s[1..], c, k);
      }
      assert Group(s, c, k) == h0 + rest by {
        assert s == [s[0]] + s[1..];
        GroupCons(s[0], s[1..], c, k);
      }
      assert h0 == [] || hx == [] by {
        if h0 != [] && hx != [] {
          LexIrreflexive(c);
        }
      }
      SwapEmpty(h0, hx, rest);
    } else {
      assert Insert(x, s) == [x] + s;
      GroupCons(x, s, c, k);
    }
  }

  /** The sort is stable: rows with the same company and rank keep their input order. */
  lemma {:induction false} SortStable(s: seq<Record>, c: string, k: nat)
    ensures Group(SortRows(s), c, k) == Group(s, c, k)
    decreases |s|
  {
    if s != [] {
      SortStable(s[1..], c, k);
      InsertGroup(s[0], SortRows(s[1..]), c, k);
    }
  }

  // ---------------------------------------------------------------------------------------
  // Keeping the first row per company and email (line 13)

  /** The duplicate key: the company and the email. */
  function KeyOf(r: Record): (string, string) {
    (Company(r), KeyText(r.email))
  }

  function KeysOf(s: seq<Record>): set<(string, string)> {
    set i | 0 <= i < |s| :: KeyOf(s[i])
  }

  lemma KeysOfSnoc(s: seq<Record>, x: Record)
    ensures KeysOf(s + [x]) == KeysOf(s) + {KeyOf(x)}
  {
    var r := s + [x];
    assert forall i :: 0 <= i < |s| ==> r[i] == s[i];
    assert r[|s|] == x;
  }

  /** Rows in another order have the same keys. */
  lemma KeysOfPermutation(a: seq<Record>, b: seq<Record>)
    requires multiset(a) == multiset(b)
    ensures KeysOf(a) == KeysOf(b)
  {
    forall key | key in KeysOf(a) ensures key in KeysOf(b) {
      var i :| 0 <= i < |a| && KeyOf(a[i]) == key;
      assert a[i] in multiset(b);
      var j :| 0 <= j < |b| && b[j] == a[i];
    }
    forall key | key in KeysOf(b) ensures key in KeysOf(a) {
      var i :| 0 <= i < |b| && KeyOf(b[i]) == key;
      assert b[i] in multiset(a);
      var j :| 0 <= j < |a| && a[j] == b[i];
    }
  }

  /** `x` is a row of `s` and no earlier row of `s` has its key. */
  ghost predicate FirstOf(s: seq<Record>, x: Record) {
    exists j :: 0 <= j < |s| && s[j] == x && forall i :: 0 <= i < j ==> KeyOf(s[i]) != KeyOf(x)
  }

  /** `idx` picks the rows of `r` out of `s` at strictly increasing positions. */
  ghost predicate PickedAt<T>(r: seq<T>, s: seq<T>, idx: seq<int>) {
    && |idx| == |r|
    && (forall k :: 0 <= k < |idx| ==> 0 <= idx[k] < |s| && r[k] == s[idx[k]])
    && (forall k, l :: 0 <= k < l < |idx| ==> idx[k] < idx[l])
  }

  /** `r` is a subsequence of `s`: its rows occur in `s` in the same order. */
  ghost predicate IsSubseq<T>(r: seq<T>, s: seq<T>) {
    exists idx :: PickedAt(r, s, idx)
  }

  /** Positions that pick `r` out of `s` still pick it out of `s + [x]`, and one more position,
      the last, picks `r + [x]`. */
  lemma PickedSnoc<T>(r: seq<T>, s: seq<T>, x: T, idx: seq<int>)
    requires PickedAt(r, s, idx)
    ensures PickedAt(r, s + [x], idx)
    ensures PickedAt(r + [x], s + [x], idx + [|s|])
  {
    var t := s + [x];
    assert PickedAt(r, t, idx) by {
      forall k | 0 <= k < |idx| ensures r[k] == t[idx[k]] {
        assert t[idx[k]] == s[idx[k]];
      }
    }
  }

  /** A subsequence stays one when a row is appended to the whole sequence, and grows by that
      row when it is appended to both. */
  lemma SubseqSnoc<T>(r: seq<T>, s: seq<T>, x: T)
    requires IsSubseq(r, s)
    ensures IsSubseq(r, s + [x])
    ensures IsSubseq(r + [x], s + [x])
  {
    var idx :| PickedAt(r, s, idx);
    PickedSnoc(r, s, x, idx);
  }

  /** `drop_duplicates(keep="first")`: the first row of every key, in order. */
  function KeepFirst(s: seq<Record>): (r: seq<Record>)
    ensures |r| <= |s|
    ensures forall i, j :: 0 <= i < j < |r| ==> KeyOf(r[i]) != KeyOf(r[j])
    ensures KeysOf(r) == KeysOf(s)
    ensures forall x :: x in r ==> FirstOf(s, x)
    decreases |s|
  {
    if s == [] then []
    else
      var init := s[..|s| - 1];
      var last := s[|s| - 1];
      var p := KeepFirst(init);
      assert s == init + [last];
      KeysOfSnoc(init, last);
      assert forall x :: FirstOf(init, x) ==> FirstOf(s, x) by {
        forall x | FirstOf(init, x)
          ensures FirstOf(s, x)
        {
          var j :| 0 <= j < |init| && init[j] == x && forall i :: 0 <= i < j ==> KeyOf(init[i]) != KeyOf(x);
          assert s[j] == x;
        }
      }
      if KeyOf(last) in KeysOf(init) then p
      else
        var r := p + [last];
        KeysOfSnoc(p, last);
        assert forall i :: 0 <= i < |init| ==> KeyOf(s[i]) != KeyOf(last) by {
          forall i | 0 <= i < |init| ensures KeyOf(s[i]) != KeyOf(last) {
            assert KeyOf(init[i]) in KeysOf(init);
          }
        }
        assert FirstOf(s, last);
        forall i | 0 <= i < |p|
          ensures KeyOf(p[i]) != KeyOf(last)
        {
          assert KeyOf(p[i]) in KeysOf(p);
        }
        r
  }

  /** The kept rows are a subsequence of the input: `drop_duplicates` keeps input order. */
  lemma {:induction false} KeepFirstInOrder(s: seq<Record>)
    ensures IsSubseq(KeepFirst(s), s)
    decreases |s|
  {
    if s == [] {
      assert PickedAt([], s, []);
    } else {
      var init := s[..|s| - 1];
      var last := s[|s| - 1];
      KeepFirstInOrder(init);
      assert s == init + [last];
      SubseqSnoc(KeepFirst(init), init, last);
    }
  }

  /** Keeping first rows keeps a sorted order. */
  lemma {:induction false} KeepFirstSorted(s: seq<Record>)
    requires Sorted(s)
    ensures Sorted(KeepFirst(s))
    decreases |s|
  {
    if s != [] {
      var init := s[..|s| - 1];
      var last := s[|s| - 1];
      assert Sorted(init);
      KeepFirstSorted(init);
      var p := KeepFirst(init);
      if KeyOf(last) !in KeysOf(init) {
        var r := p + [last];
        forall i, j | 0 <= i < j < |r|
          ensures !Before(r[j], r[i])
        {
          if j == |p| {
            assert FirstOf(init, p[i]);
            var m :| 0 <= m < |init| && init[m] == p[i] && forall n :: 0 <= n < m ==> KeyOf(init[n]) != KeyOf(p[i]);
            assert s[m] == r[i];
          }
        }
      }
    }
  }

  // ---------------------------------------------------------------------------------------
  // dedupe_leads

  /** The canonicalised rows, in input order. */
  function CanonRows(rows: seq<Record>): (c: seq<Record>)
    ensures |c| == |rows| && forall i :: 0 <= i < |rows| ==> c[i] == CanonRow(rows[i])
  {
    seq(|rows|, i requires 0 <= i < |rows| => CanonRow(rows[i]))
  }

  /** `dedupe_leads`: canonicalise the keys, sort stably by company and descending rank, keep the
      first row of every company and email. The rank columns it adds are dropped again, so the
      result has the input's fields. */
  function DedupeLeads(rows: seq<Record>): seq<Record> {
    KeepFirst(SortRows(CanonRows(rows)))
  }

  /** No two leads left share company and email, and there are no more leads than before. */
  lemma DedupeUnique(rows: seq<Record>)
    ensures |DedupeLeads(rows)| <= |rows|
    ensures forall i, j :: 0 <= i < j < |DedupeLeads(rows)| ==>
              KeyOf(DedupeLeads(rows)[i]) != KeyOf(DedupeLeads(rows)[j])
  {
  }

  /** Every company and email of the input (canonicalised) is still represented. */
  lemma DedupeKeepsKeys(rows: seq<Record>)
    ensures KeysOf(DedupeLeads(rows)) == KeysOf(CanonRows(rows))
  {
    KeysOfPermutation(SortRows(CanonRows(rows)), CanonRows(rows));
  }

  /** Every lead left is an input row with its keys canonicalised, and the leads come in
      company order, the better ranked first within a company; they are a subsequence of the
      stably sorted rows, so leads that tie keep their input order. */
  lemma DedupeFromInput(rows: seq<Record>)
    ensures forall x :: x in DedupeLeads(rows) ==> x in CanonRows(rows)
    ensures Sorted(DedupeLeads(rows))
    ensures IsSubseq(DedupeLeads(rows), SortRows(CanonRows(rows)))
  {
    var c := CanonRows(rows);
    var s := SortRows(c);
    forall x | x in DedupeLeads(rows) ensures x in c {
      assert FirstOf(s, x);
      assert x in multiset(s);
    }
    SortRowsSorted(c);
    KeepFirstSorted(s);
    KeepFirstInOrder(s);
  }

  /** The lead kept for a company and email has the highest rank among the input rows with that
      company and email: an email with "@" and a website with a dot win over their absence. */
  lemma DedupeBestRank(rows: seq<Record>, x: Record, i: nat)
    requires x in DedupeLeads(rows) && i < |rows|
    requires KeyOf(CanonRow(rows[i])) == KeyOf(x)
    ensures Rank(CanonRow(rows[i])) <= Rank(x)
  {
    var c := CanonRows(rows);
    var s := SortRows(c);
    SortRowsSorted(c);
    assert FirstOf(s, x);
    assert c[i] in multiset(s);
    FirstOfSortedBest(s, x, c[i]);
  }

  /** In a sorted sequence, the first row of a key ranks at least as high as any row of that key. */
  lemma FirstOfSortedBest(s: seq<Record>, x: Record, y: Record)
    requires Sorted(s) && FirstOf(s, x) && y in s && KeyOf(y) == KeyOf(x)
    ensures Rank(y) <= Rank(x)
  {
    var j :| 0 <= j < |s| && s[j] == x && forall n :: 0 <= n < j ==> KeyOf(s[n]) != KeyOf(x);
    var m :| 0 <= m < |s| && s[m] == y;
    if m > j {
      assert !Before(s[m], s[j]);
    }
  }

  /** Every lead's company, email and website is a lower-case, stripped text; in particular
      none of them is null after deduplication. */
  lemma DedupeCanonical(rows: seq<Record>)
    ensures forall x :: x in DedupeLeads(rows) ==>
              IsCanonText(x.companyName) && IsCanonText(x.email) && IsCanonText(x.website)
  {
    DedupeFromInput(rows);
    forall x | x in DedupeLeads(rows)
      ensures IsCanonText(x.companyName) && IsCanonText(x.email) && IsCanonText(x.website)
    {
      var i :| 0 <= i < |rows| && CanonRows(rows)[i] == x;
      CanonIsCanonText(rows[i].companyName);
      CanonIsCanonText(rows[i].email);
      CanonIsCanonText(rows[i].website);
    }
  }

  /** Rows whose company and email all agree after canonicalisation collapse into one lead. A
      null email and the text "None" agree, so a company's rows without an email collapse too. */
  lemma DedupeOneKey(rows: seq<Record>)
    requires rows != []
    requires forall i :: 0 <= i < |rows| ==> KeyOf(CanonRow(rows[i])) == KeyOf(CanonRow(rows[0]))
    ensures |DedupeLeads(rows)| == 1
  {
    DedupeKeepsKeys(rows);
    DedupeUnique(rows);
    var c := CanonRows(rows);
    assert KeysOf(c) == {KeyOf(CanonRow(rows[0]))} by {
      assert KeyOf(c[0]) in KeysOf(c);
    }
    SingleKey(DedupeLeads(rows), KeyOf(CanonRow(rows[0])));
  }

  lemma SingleKey(d: seq<Record>, key: (string, string))
    requires KeysOf(d) == {key}
    requires forall i, j :: 0 <= i < j < |d| ==> KeyOf(d[i]) != KeyOf(d[j])
    ensures |d| == 1
  {
    DistinctKeys(d);
  }

  /** Rows with pairwise different keys have as many keys as rows. */
  lemma {:induction false} DistinctKeys(d: seq<Record>)
    requires forall i, j :: 0 <= i < j < |d| ==> KeyOf(d[i]) != KeyOf(d[j])
    ensures |KeysOf(d)| == |d|
    decreases |d|
  {
    if d != [] {
      var init := d[..|d| - 1];
      assert d == init + [d[|d| - 1]];
      DistinctKeys(init);
      KeysOfSnoc(init, d[|d| - 1]);
      forall key | key in KeysOf(init) ensures key != KeyOf(d[|d| - 1]) {
        var i :| 0 <= i < |init| && KeyOf(init[i]) == key;
        assert init[i] == d[i];
      }
    }
  }

  /** A null cell and the text "None" are the same key. */
  lemma NullIsNoneText()
    ensures Canon(None) == Canon(Some("None")) == Some("none")
  {
    CanonNone();
  }
}
