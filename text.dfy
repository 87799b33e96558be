/** Python's `str` operations that the lead pipeline uses, on strings as `seq<char>`. */
module Text {
  import opened Wrappers

  /** `str.isspace` restricted to ASCII: space, tab, line feed, vertical tab, form feed,
      carriage return and the separators 0x1c-0x1f. */
  predicate IsSpace(c: char) {
    c == ' ' || ('\t' <= c <= '\r') || ('\U{1C}' <= c <= '\U{1F}')
  }

  /** Leading whitespace removed (`str.lstrip()`). */
  function TrimStart(s: string): (r: string)
    ensures |r| <= |s| && r == s[|s| - |r|..]
    ensures r != [] ==> !IsSpace(r[0])
    ensures forall i :: 0 <= i < |s| - |r| ==> IsSpace(s[i])
  {
    if s != [] && IsSpace(s[0]) then TrimStart(s[1..]) else s
  }

  /** Trailing whitespace removed (`str.rstrip()`). */
  function TrimEnd(s: string): (r: string)
    ensures |r| <= |s| && r == s[..|r|]
    ensures r != [] ==> !IsSpace(r[|r| - 1])
    ensures forall i :: |r| <= i < |s| ==> IsSpace(s[i])
  {
    if s != [] && IsSpace(s[|s| - 1]) then TrimEnd(s[..|s| - 1]) else s
  }

  /** `r` is the infix of `s` starting at `i`, and everything around it is whitespace. */
  ghost predicate IsStrippedAt(s: string, r: string, i: int) {
    && 0 <= i <= |s| - |r|
    && r == s[i..i + |r|]
    && (forall k :: 0 <= k < i ==> IsSpace(s[k]))
    && (forall k :: i + |r| <= k < |s| ==> IsSpace(s[k]))
  }

  /** `str.strip()`: leading and trailing whitespace removed. */
  function Strip(s: string): (r: string)
    ensures |r| <= |s|
    ensures r != [] ==> !IsSpace(r[0]) && !IsSpace(r[|r| - 1])
  {
    TrimEnd(TrimStart(s))
  }

  /** The stripped text is an infix of the input, and everything cut off is whitespace. */
  lemma StripInfix(s: string)
    ensures exists i :: IsStrippedAt(s, Strip(s), i)
  {
    var t := TrimStart(s);
    assert IsStrippedAt(s, Strip(s), |s| - |t|);
  }

  /** A string with no whitespace at either end is its own strip. */
  lemma StripUnchanged(s: string)
    requires s != [] ==> !IsSpace(s[0]) && !IsSpace(s[|s| - 1])
    ensures Strip(s) == s
  {
  }

  /** One space on each side of a string without whitespace at its ends is stripped away. */
  lemma StripPadded(x: string)
    requires x != [] && !IsSpace(x[0]) && !IsSpace(x[|x| - 1])
    ensures Strip(" " + x + " ") == x
  {
    var p := " " + x + " ";
    assert p[1..] == x + " ";
    assert TrimStart(p) == TrimStart(x + " ");
    assert TrimStart(x + " ") == x + " ";
    assert (x + " ")[..|x|] == x;
    assert TrimEnd(x + " ") == TrimEnd(x);
    assert TrimEnd(x) == x;
  }

  /** Stripping twice is stripping once. */
  lemma StripIdempotent(s: string)
    ensures Strip(Strip(s)) == Strip(s)
  {
    StripUnchanged(Strip(s));
  }

  /** ASCII `str.lower()` on one character. */
  function LowerChar(c: char): char {
    if 'A' <= c <= 'Z' then (c as int + 32) as char else c
  }

  /** Lower-casing a character keeps whitespace whitespace and anything else not whitespace. */
  lemma LowerCharFacts(c: char)
    ensures IsSpace(LowerChar(c)) == IsSpace(c)
    ensures !('A' <= LowerChar(c) <= 'Z')
  {
  }

  /** ASCII `str.lower()`: every upper-case letter replaced by its lower-case form. */
  function Lower(s: string): (r: string)
    ensures |r| == |s|
    ensures forall i :: 0 <= i < |s| ==> r[i] == LowerChar(s[i])
  {
    seq(|s|, i requires 0 <= i < |s| => LowerChar(s[i]))
  }

  /** A string without upper-case letters. */
  predicate IsLower(s: string) {
    forall i :: 0 <= i < |s| ==> !('A' <= s[i] <= 'Z')
  }

  lemma LowerIsLower(s: string)
    ensures IsLower(Lower(s))
  {
  }

  /** Lower-casing leaves a string without upper-case letters unchanged. */
  lemma LowerUnchanged(s: string)
    requires IsLower(s)
    ensures Lower(s) == s
  {
  }

  /** Lower-casing distributes over concatenation. */
  lemma LowerConcat(a: string, b: string)
    ensures Lower(a + b) == Lower(a) + Lower(b)
  {
  }

  /** `str.replace(" ", "_")`. */
  function ReplaceSpaces(s: string): (r: string)
    ensures |r| == |s|
    ensures forall i :: 0 <= i < |s| ==> r[i] == if s[i] == ' ' then '_' else s[i]
  {
    seq(|s|, i requires 0 <= i < |s| => if s[i] == ' ' then '_' else s[i])
  }

  /** `s.startswith(prefix)`. */
  predicate StartsWith(s: string, prefix: string) {
    |prefix| <= |s| && s[..|prefix|] == prefix
  }

  /** `s.endswith(suffix)`. */
  predicate EndsWith(s: string, suffix: string) {
    |suffix| <= |s| && s[|s| - |suffix|..] == suffix
  }

  /** Python's `needle in hay`: `needle` occurs in `hay` at some position. */
  function Contains(hay: string, needle: string): (b: bool)
    ensures b <==> exists i :: 0 <= i <= |hay| - |needle| && StartsWith(hay[i..], needle)
  {
    if StartsWith(hay, needle) then
      assert hay[0..] == hay;
      true
    else if hay == [] then false
    else
      var b := Contains(hay[1..], needle);
      assert forall i :: 1 <= i <= |hay| - |needle| ==> hay[i..] == hay[1..][i - 1..];
      b
  }

  /** A needle containing a character that the haystack lacks does not occur in it. */
  lemma NotContainsMissingChar(hay: string, needle: string, k: nat)
    requires k < |needle|
    requires forall i :: 0 <= i < |hay| ==> hay[i] != needle[k]
    ensures !Contains(hay, needle)
  {
    forall i | 0 <= i <= |hay| - |needle|
      ensures !StartsWith(hay[i..], needle)
    {
      assert hay[i..][k] == hay[i + k];
    }
  }

  /** score.py's `_contains_any`: some keyword occurs in the lower-cased text. The keywords
      themselves are not lower-cased. */
  function ContainsAny(text: string, keywords: seq<string>): (b: bool)
    ensures b <==> exists j :: 0 <= j < |keywords| && Contains(Lower(text), keywords[j])
  {
    if keywords == [] then false
    else
      var b := Contains(Lower(text), keywords[0]) || ContainsAny(text, keywords[1..]);
      assert forall j :: 1 <= j < |keywords| ==> keywords[j] == keywords[1..][j - 1];
      b
  }

  /** Matching is case-insensitive in the text: lower-casing the text first changes nothing. */
  lemma {:induction false} ContainsAnyIgnoresCase(text: string, keywords: seq<string>)
    ensures ContainsAny(Lower(text), keywords) == ContainsAny(text, keywords)
  {
    assert Lower(Lower(text)) == Lower(text) by {
      LowerIsLower(text);
      LowerUnchanged(Lower(text));
    }
  }

  /** The text an f-string or `astype(str)` shows for a cell: `None` stringifies as "None". */
  function Format(c: Option<string>): string {
    match c
    case None => "None"
    case Some(s) => s
  }

  /** `fillna("")` on one cell. */
  function OrEmpty(c: Option<string>): string {
    c.GetOr("")
  }

  /** `str.split(sep)` scanning from the left, with `cur` the piece collected so far. */
  function SplitFrom(s: string, sep: string, cur: string): (parts: seq<string>)
    requires sep != []
    ensures |parts| >= 1
    decreases |s|
  {
    if StartsWith(s, sep) then [cur] + SplitFrom(s[|sep|..], sep, "")
    else if s == [] then [cur]
    else SplitFrom(s[1..], sep, cur + [s[0]])
  }

  /** Python's `s.split(sep)` for a non-empty separator. */
  function Split(s: string, sep: string): seq<string>
    requires sep != []
  {
    SplitFrom(s, sep, "")
  }

  /** Python's `sep.join(parts)`. */
  function Join(parts: seq<string>, sep: string): string {
    if |parts| == 0 then ""
    else if |parts| == 1 then parts[0]
    else parts[0] + sep + Join(parts[1..], sep)
  }

  lemma {:induction false} JoinSplitFrom(s: string, sep: string, cur: string)
    requires sep != []
    ensures Join(SplitFrom(s, sep, cur), sep) == cur + s
    decreases |s|
  {
    if StartsWith(s, sep) {
      var rest := SplitFrom(s[|sep|..], sep, "");
      JoinSplitFrom(s[|sep|..], sep, "");
      assert SplitFrom(s, sep, cur)[1..] == rest;
      assert s == sep + s[|sep|..];
    } else if s == [] {
    } else {
      JoinSplitFrom(s[1..], sep, cur + [s[0]]);
      assert cur + [s[0]] + s[1..] == cur + s;
    }
  }

  /** Splitting and joining again with the same separator gives back the string. */
  lemma JoinSplit(s: string, sep: string)
    requires sep != []
    ensures Join(Split(s, sep), sep) == s
  {
    JoinSplitFrom(s, sep, "");
  }

  /** While the text holds no copy of the separator's first character, the scan only collects. */
  lemma {:induction false} SplitFromSkip(a: string, rest: string, sep: string, cur: string)
    requires sep != []
    requires forall k :: 0 <= k < |a| ==> a[k] != sep[0]
    ensures SplitFrom(a + rest, sep, cur) == SplitFrom(rest, sep, cur + a)
    decreases |a|
  {
    if a == [] {
      assert a + rest == rest;
      assert cur + a == cur;
    } else {
      var s := a + rest;
      assert s[0] == a[0];
      assert !StartsWith(s, sep);
      assert s[1..] == a[1..] + rest;
      SplitFromSkip(a[1..], rest, sep, cur + [a[0]]);
      assert cur + [a[0]] + a[1..] == cur + a;
    }
  }

  /** A string without the separator's first character splits into itself alone. */
  lemma SplitNoSeparator(s: string, sep: string)
    requires sep != []
    requires forall k :: 0 <= k < |s| ==> s[k] != sep[0]
    ensures Split(s, sep) == [s]
  {
    SplitFromSkip(s, "", sep, "");
    assert s + "" == s;
    assert "" + s == s;
    assert !StartsWith("", sep);
  }

  /** Two separator-free pieces joined by a one-character separator split back into the two. */
  lemma SplitTwo(a: string, b: string, sep: string)
    requires |sep| == 1
    requires forall k :: 0 <= k < |a| ==> a[k] != sep[0]
    requires forall k :: 0 <= k < |b| ==> b[k] != sep[0]
    ensures Split(a + sep + b, sep) == [a, b]
  {
    assert a + sep + b == a + (sep + b);
    SplitFromSkip(a, sep + b, sep, "");
    assert "" + a == a;
    assert StartsWith(sep + b, sep);
    assert (sep + b)[|sep|..] == b;
    SplitNoSeparator(b, sep);
  }
}
