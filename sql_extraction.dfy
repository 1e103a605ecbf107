/**
 * Extracting the SQL statement from the language model's reply (backend/api/views.py):
 * `re.search(r"(SELECT|UPDATE|INSERT|DELETE)[\s\S]+?;", reply, re.IGNORECASE)`
 * followed by `.group(0).strip()`.
 */
module SqlExtraction {
  import opened Wrappers

  /** All four keywords have six letters. */
  const KeywordLength: nat := 6

  /** Whether `c` matches the upper-case ASCII letter `u` under Python's case-insensitive
      matching of str patterns: both cases, and also U+0130 and U+0131 for I and U+017F for S. */
  predicate CaseEq(c: char, u: char) {
    c == u
    || ('A' <= u <= 'Z' && c as int == u as int + 32)
    || (u == 'I' && (c == '\U{130}' || c == '\U{131}'))
    || (u == 'S' && c == '\U{17F}')
  }

  /** The six characters at `i` match the keyword `kw` ignoring case. */
  predicate WordAt(s: string, i: nat, kw: string)
    requires i + KeywordLength <= |s| && |kw| == KeywordLength
  {
    && CaseEq(s[i], kw[0]) && CaseEq(s[i + 1], kw[1]) && CaseEq(s[i + 2], kw[2])
    && CaseEq(s[i + 3], kw[3]) && CaseEq(s[i + 4], kw[4]) && CaseEq(s[i + 5], kw[5])
  }

  /** The alternation `(SELECT|UPDATE|INSERT|DELETE)` matches at `i`. */
  predicate KeywordAt(s: string, i: nat) {
    && i + KeywordLength <= |s|
    && (WordAt(s, i, "SELECT") || WordAt(s, i, "UPDATE") || WordAt(s, i, "INSERT") || WordAt(s, i, "DELETE"))
  }

  predicate NoSemicolon(s: string, lo: nat, hi: nat)
    requires lo <= hi <= |s|
  {
    forall k :: lo <= k < hi ==> s[k] != ';'
  }

  /** The pattern matches `s[i..j + 1]`: a keyword at `i`, at least one character, and
      `j` the first `;` after that character (the lazy `+?` stops there). */
  predicate MatchAt(s: string, i: nat, j: nat) {
    && KeywordAt(s, i)
    && i + KeywordLength + 1 <= j < |s|
    && s[j] == ';'
    && NoSemicolon(s, i + KeywordLength + 1, j)
  }

  /** The first `;` at or after `from`. */
  function FirstSemicolon(s: string, from: nat): (r: Option<nat>)
    decreases |s| - from
    ensures r.Some? ==> from <= r.value < |s| && s[r.value] == ';' && NoSemicolon(s, from, r.value)
    ensures r.None? ==> from >= |s| || NoSemicolon(s, from, |s|)
  {
    if from >= |s| then None
    else if s[from] == ';' then Some(from)
    else FirstSemicolon(s, from + 1)
  }

  /** The end (the index of the `;`) of the match starting at `i`, if any. */
  function MatchEnd(s: string, i: nat): (r: Option<nat>)
    ensures r.Some? ==> i + KeywordLength + 1 <= r.value < |s|
  {
    if KeywordAt(s, i) then FirstSemicolon(s, i + KeywordLength + 1) else None
  }

  /** `MatchEnd` finds the match at `i` exactly when there is one. */
  lemma MatchEndSpec(s: string, i: nat)
    ensures MatchEnd(s, i).Some? ==> MatchAt(s, i, MatchEnd(s, i).value)
    ensures MatchEnd(s, i).None? ==> forall j :: !MatchAt(s, i, j)
  {
  }

  /** `re.search` from position `from`: the span `(start, end)` of the first match found
      trying the positions from `from` on. */
  function SearchFrom(s: string, from: nat): (r: Option<(nat, nat)>)
    decreases |s| - from
    ensures r.Some? ==> from <= r.value.0 < r.value.1 <= |s|
  {
    if from >= |s| then None
    else
      match MatchEnd(s, from)
      case Some(j) => Some((from, j + 1))
      case None => SearchFrom(s, from + 1)
  }

  /** The search finds the leftmost match at or after `from`, and finds none only when
      no position from `from` on starts one. */
  lemma {:induction false} SearchFromSpec(s: string, from: nat)
    decreases |s| - from
    ensures SearchFrom(s, from).Some? ==>
      var (start, end) := SearchFrom(s, from).value;
      && MatchAt(s, start, end - 1)
      && forall i, j :: from <= i < start ==> !MatchAt(s, i, j)
    ensures SearchFrom(s, from).None? ==> forall i, j :: from <= i ==> !MatchAt(s, i, j)
  {
    if from < |s| {
      MatchEndSpec(s, from);
      if MatchEnd(s, from).None? {
        SearchFromSpec(s, from + 1);
      }
    }
  }

  function Search(s: string): Option<(nat, nat)> {
    SearchFrom(s, 0)
  }

  /** Python's `str.isspace` characters, which `str.strip()` removes. */
  predicate IsPySpace(c: char) {
    ('\t' <= c <= '\r') || ('\U{1C}' <= c <= '\U{1F}') || c == ' ' || c == '\U{85}' || c == '\U{A0}'
    || c == '\U{1680}' || ('\U{2000}' <= c <= '\U{200A}') || c == '\U{2028}' || c == '\U{2029}'
    || c == '\U{202F}' || c == '\U{205F}' || c == '\U{3000}'
  }

  /** Where the whitespace run starting at `i` ends: the first position at or after `i`
      that is not whitespace, or `|s|`. */
  function SpaceRunEnd(s: string, i: nat): (e: nat)
    requires i <= |s|
    ensures i <= e <= |s|
    ensures forall k :: i <= k < e ==> IsPySpace(s[k])
    ensures e < |s| ==> !IsPySpace(s[e])
    decreases |s| - i
  {
    if i < |s| && IsPySpace(s[i]) then SpaceRunEnd(s, i + 1) else i
  }

  /** Where the whitespace run ending at `j` begins, looking no further back than `lo`. */
  function SpaceRunStart(s: string, lo: nat, j: nat): (b: nat)
    requires lo <= j <= |s|
    ensures lo <= b <= j
    ensures forall k :: b <= k < j ==> IsPySpace(s[k])
    ensures b > lo ==> !IsPySpace(s[b - 1])
    decreases j
  {
    if j > lo && IsPySpace(s[j - 1]) then SpaceRunStart(s, lo, j - 1) else j
  }

  /** `str.strip()`: the text between the leading and the trailing whitespace runs. */
  function Strip(s: string): string {
    var a := SpaceRunEnd(s, 0);
    s[a..SpaceRunStart(s, a, |s|)]
  }

  /** `strip()` keeps a slice of the string; everything it drops on either side is
      whitespace, and what it keeps neither starts nor ends with whitespace. */
  lemma StripSpec(s: string)
    ensures var a := SpaceRunEnd(s, 0);
      && a + |Strip(s)| <= |s|
      && Strip(s) == s[a..a + |Strip(s)|]
      && (forall k :: 0 <= k < a ==> IsPySpace(s[k]))
      && (forall k :: a + |Strip(s)| <= k < |s| ==> IsPySpace(s[k]))
    ensures Strip(s) != [] ==> !IsPySpace(Strip(s)[0]) && !IsPySpace(Strip(s)[|Strip(s)| - 1])
  {
  }

  /** A string that neither starts nor ends with whitespace is left alone by `strip()`. */
  lemma StripUnchanged(s: string)
    requires s != [] && !IsPySpace(s[0]) && !IsPySpace(s[|s| - 1])
    ensures Strip(s) == s
  {
  }

  /** `sql_match.group(0).strip()`, or None when the pattern does not match. */
  function ExtractSql(reply: string): Option<string> {
    match Search(reply)
    case None => None
    case Some((i, e)) => Some(Strip(reply[i..e]))
  }

  /** What an extracted statement looks like: a keyword, at least one character, then
      a `;` that is the first one after that character, and nothing after it. */
  predicate IsSqlShape(q: string) {
    && |q| >= KeywordLength + 2
    && KeywordAt(q, 0)
    && q[|q| - 1] == ';'
    && NoSemicolon(q, KeywordLength + 1, |q| - 1)
  }

  /** A character a keyword letter matches is neither whitespace nor `;`. */
  lemma KeywordLetters(s: string, i: nat)
    requires KeywordAt(s, i)
    ensures !IsPySpace(s[i]) && s[i] != ';'
  {
  }

  /** The four keywords begin with distinct letters, even ignoring case, so at most one
      alternative matches at a position. */
  lemma OneAlternative(s: string, i: nat)
    requires KeywordAt(s, i)
    ensures WordAt(s, i, "SELECT") ==> !WordAt(s, i, "UPDATE") && !WordAt(s, i, "INSERT") && !WordAt(s, i, "DELETE")
    ensures WordAt(s, i, "UPDATE") ==> !WordAt(s, i, "INSERT") && !WordAt(s, i, "DELETE")
    ensures WordAt(s, i, "INSERT") ==> !WordAt(s, i, "DELETE")
  {
  }

  /** The text a match covers has the statement shape and survives `strip()` unchanged. */
  lemma MatchShape(s: string, i: nat, j: nat)
    requires MatchAt(s, i, j)
    ensures IsSqlShape(s[i..j + 1]) && Strip(s[i..j + 1]) == s[i..j + 1]
  {
    var q := s[i..j + 1];
    assert q[0] == s[i] && q[1] == s[i + 1] && q[2] == s[i + 2];
    assert q[3] == s[i + 3] && q[4] == s[i + 4] && q[5] == s[i + 5];
    assert KeywordAt(q, 0);
    KeywordLetters(q, 0);
    assert q[|q| - 1] == s[j];
    StripUnchanged(q);
    forall k | KeywordLength + 1 <= k < |q| - 1
      ensures q[k] != ';'
    {
      assert q[k] == s[i + k];
    }
  }

  /** The extracted statement is the leftmost match, unchanged by `strip()`, and has the
      shape above; there is no statement exactly when no position starts a match. */
  lemma ExtractSqlSpec(reply: string)
    ensures ExtractSql(reply).None? <==> forall i, j :: !MatchAt(reply, i, j)
    ensures ExtractSql(reply).Some? ==>
      && Search(reply).Some?
      && MatchAt(reply, Search(reply).value.0, Search(reply).value.1 - 1)
      && (forall i, j :: 0 <= i < Search(reply).value.0 ==> !MatchAt(reply, i, j))
      && ExtractSql(reply).value == reply[Search(reply).value.0..Search(reply).value.1]
      && IsSqlShape(ExtractSql(reply).value)
  {
    SearchFromSpec(reply, 0);
    match Search(reply)
    case None =>
    case Some((i, e)) =>
      MatchShape(reply, i, e - 1);
  }

  /** Whatever is extracted has the statement shape. */
  lemma ExtractedShape(reply: string)
    ensures ExtractSql(reply).Some? ==> IsSqlShape(ExtractSql(reply).value)
  {
    ExtractSqlSpec(reply);
  }

  /** A position whose character begins none of the keywords starts no match. */
  lemma NoKeywordAt(s: string, i: nat)
    requires i < |s|
    requires !(s[i] in "SsUuDdIi" || s[i] == '\U{130}' || s[i] == '\U{131}' || s[i] == '\U{17F}')
    ensures MatchEnd(s, i) == None
  {
  }

  /** An earlier keyword-free prefix is skipped, and the lazy quantifier stops at the
      first `;` after the keyword. */
  lemma LeftmostLazyExample()
    ensures ExtractSql("Q: select a; b;") == Some("select a;")
  {
    var r := "Q: select a; b;";
    assert WordAt(r, 3, "SELECT");
    assert FirstSemicolon(r, 10) == Some(11);
    assert MatchEnd(r, 3) == Some(11);
    assert SearchFrom(r, 3) == Some((3, 12));
    NoKeywordAt(r, 2);
    NoKeywordAt(r, 1);
    NoKeywordAt(r, 0);
    assert SearchFrom(r, 0) == Some((3, 12));
    assert r[3..12] == "select a;";
    StripUnchanged("select a;");
  }

  /** The `+` demands a character between the keyword and the `;` ... */
  lemma SemicolonRightAfterKeywordExample()
    ensures ExtractSql("SELECT;") == None
  {
    var r := "SELECT;";
    assert MatchEnd(r, 0) == None;
    NoKeywordAt(r, 6);
    NoKeywordAt(r, 5);
    NoKeywordAt(r, 4);
    NoKeywordAt(r, 3);
    NoKeywordAt(r, 2);
    NoKeywordAt(r, 1);
    assert SearchFrom(r, 6) == None;
    assert SearchFrom(r, 4) == None;
    assert SearchFrom(r, 2) == None;
    assert SearchFrom(r, 0) == None;
  }

  /** ... and that character may itself be `;`. */
  lemma SemicolonAfterKeywordExample()
    ensures ExtractSql("SELECT;;") == Some("SELECT;;")
  {
    var r := "SELECT;;";
    assert WordAt(r, 0, "SELECT");
    assert FirstSemicolon(r, 7) == Some(7);
    assert MatchEnd(r, 0) == Some(7);
    assert SearchFrom(r, 0) == Some((0, 8));
    assert r[0..8] == r;
    StripUnchanged(r);
  }
}
