/**
 * The regular expressions of the core, each written out as a scanner.
 *
 * `MatchAt(pat, s, p)` is what Python's `re` engine returns when it tries
 * `pat` at index `p` of `s` (its backtracking is resolved by hand, pattern by
 * pattern); `FindIter` is `finditer`/`findall` (leftmost, non-overlapping,
 * resuming at the end of each hit) and `Search` is `re.search`.
 * `\d` is taken as the ASCII digits and IGNORECASE as ASCII case folding.
 */
module Regex {
  import opened Wrappers
  import opened Text

  predicate IsDigit(c: char) { '0' <= c <= '9' }
  predicate IsUpperAscii(c: char) { 'A' <= c <= 'Z' }
  predicate IsLowerAscii(c: char) { 'a' <= c <= 'z' }

  /** One match: the span `[start, end)` it covers and the text of its capture group. */
  datatype Hit = Hit(start: nat, end: nat, group: string)

  datatype Pattern =
    /** `(### Table [A-Z]?\d+\.\d+:.*?\n(?:\|.*?\|.*?\n)+)` with DOTALL (table_aware_splitter.py:37) */
    | TableBlock
    /** `### Table [A-Z]?\d+\.\d+: (.*?)\n` (table_aware_splitter.py:97) */
    | TableTitle
    /** `<prefix>([A-Z]?\d+\.\d+)`, optionally IGNORECASE: the splitter's id searches and the evaluator's finders */
    | TableIdAfter(prefix: string, ignoreCase: bool)
    /** `(see Table ID|refer to Table ID|Table ID)` with IGNORECASE (table_aware_splitter.py:41) */
    | Mention
    /** `see Table(?!\s+[A-Z]?\d+\.\d+)` with IGNORECASE (langsmith_evaluator.py:134) */
    | BrokenMention
    /** `(\d+\.?\d*)\s*%` */
    | Rate
    /** `\$(\d{1,3}(?:,\d{3})*(?:\.\d{2})?)` */
    | Dollar
    /** `(\d+)\s*(?:month|year)s?` with IGNORECASE */
    | Term

  /** The end of the longest run of digits starting at `i` (greedy `\d*`). */
  function DigitsEnd(s: string, i: nat): (j: nat)
    requires i <= |s|
    ensures i <= j <= |s|
    ensures forall k :: i <= k < j ==> IsDigit(s[k])
    ensures j == |s| || !IsDigit(s[j])
    decreases |s| - i
  {
    if i < |s| && IsDigit(s[i]) then DigitsEnd(s, i + 1) else i
  }

  /** The end of the longest run of whitespace starting at `i` (greedy `\s*`). */
  function SpacesEnd(s: string, i: nat): (j: nat)
    requires i <= |s|
    ensures i <= j <= |s|
    ensures forall k :: i <= k < j ==> IsSpace(s[k])
    ensures j == |s| || !IsSpace(s[j])
    decreases |s| - i
  {
    if i < |s| && IsSpace(s[i]) then SpacesEnd(s, i + 1) else i
  }

  predicate CharMatches(c: char, lit: char, ignoreCase: bool) {
    if ignoreCase then LowerChar(c) == LowerChar(lit) else c == lit
  }

  /** The literal `lit` occurs at index `i` of `s`. */
  predicate LiteralAt(lit: string, s: string, i: nat, ignoreCase: bool) {
    i + |lit| <= |s| && forall k :: 0 <= k < |lit| ==> CharMatches(s[i + k], lit[k], ignoreCase)
  }

  /** Case-sensitive `LiteralAt` is plain equality of the slice. */
  lemma LiteralAtExact(lit: string, s: string, i: nat)
    ensures LiteralAt(lit, s, i, false) <==> (i + |lit| <= |s| && s[i..i + |lit|] == lit)
  {
    if i + |lit| <= |s| {
      if LiteralAt(lit, s, i, false) {
        forall k | 0 <= k < |lit| ensures s[i..i + |lit|][k] == lit[k] {
          assert CharMatches(s[i + k], lit[k], false);
        }
      }
      if s[i..i + |lit|] == lit {
        forall k | 0 <= k < |lit| ensures CharMatches(s[i + k], lit[k], false) {
          assert s[i..i + |lit|][k] == s[i + k];
        }
      }
    }
  }

  lemma LiteralCharAt(lit: string, s: string, i: nat, ignoreCase: bool, k: nat)
    requires LiteralAt(lit, s, i, ignoreCase) && k < |lit|
    ensures CharMatches(s[i + k], lit[k], ignoreCase)
  {
  }

  /** A literal that occurs verbatim matches, with or without IGNORECASE. */
  lemma LiteralAtVerbatim(lit: string, s: string, i: nat, ignoreCase: bool)
    requires i + |lit| <= |s| && s[i..i + |lit|] == lit
    ensures LiteralAt(lit, s, i, ignoreCase)
  {
    forall k | 0 <= k < |lit| ensures CharMatches(s[i + k], lit[k], ignoreCase) {
      assert s[i..i + |lit|][k] == s[i + k];
    }
  }

  /** Whether the optional letter of `[A-Z]?` can be taken at index `i`. */
  predicate IdLetter(s: string, i: nat, ignoreCase: bool) {
    i < |s| && (IsUpperAscii(s[i]) || (ignoreCase && IsLowerAscii(s[i])))
  }

  predicate AllDigits(x: string) {
    forall k :: 0 <= k < |x| ==> IsDigit(x[k])
  }

  /** A table identifier `[A-Z]?\d+\.\d+` (with IGNORECASE the letter may be lower-case). */
  predicate IsTableId(x: string, ignoreCase: bool) {
    var k := if IdLetter(x, 0, ignoreCase) then 1 else 0;
    var m := IndexOf(x, '.', k);
    k < m < |x| - 1 && AllDigits(x[k..m]) && AllDigits(x[m + 1..])
  }

  /**
   * The end of the table identifier `[A-Z]?\d+\.\d+` that starts at `i`, if any.
   * Both `\d+` are greedy and nothing in an identifier can make them give back a digit,
   * so the identifier always runs to the end of its second digit run.
   */
  function IdEnd(s: string, i: nat, ignoreCase: bool): (r: Option<nat>)
    requires i <= |s|
    ensures r.Some? ==> i + 3 <= r.value <= |s|
    ensures r.Some? ==> (r.value == |s| || !IsDigit(s[r.value]))
  {
    var k := if IdLetter(s, i, ignoreCase) then i + 1 else i;
    var d1 := DigitsEnd(s, k);
    if d1 > k && d1 < |s| && s[d1] == '.' then
      var d2 := DigitsEnd(s, d1 + 1);
      if d2 > d1 + 1 then Some(d2) else None
    else None
  }

  /** A maximal digit run is found by `DigitsEnd`. */
  lemma {:induction false} DigitsEndOf(s: string, a: nat, b: nat)
    requires a <= b <= |s|
    requires forall k :: a <= k < b ==> IsDigit(s[k])
    requires b == |s| || !IsDigit(s[b])
    ensures DigitsEnd(s, a) == b
    decreases b - a
  {
    if a < b {
      DigitsEndOf(s, a + 1, b);
    }
  }

  /** The identifier `IdEnd` finds is a table identifier. */
  lemma IdEndSound(s: string, i: nat, ignoreCase: bool)
    requires i <= |s| && IdEnd(s, i, ignoreCase).Some?
    ensures IsTableId(s[i..IdEnd(s, i, ignoreCase).value], ignoreCase)
  {
    var e := IdEnd(s, i, ignoreCase).value;
    var x := s[i..e];
    var k := if IdLetter(s, i, ignoreCase) then i + 1 else i;
    var d1 := DigitsEnd(s, k);
    assert IdLetter(x, 0, ignoreCase) == IdLetter(s, i, ignoreCase);
    IndexOfDigits(x, k - i, d1 - i);
    var a := x[k - i..d1 - i];
    forall j | 0 <= j < |a| ensures IsDigit(a[j]) {
      assert a[j] == s[k + j];
    }
    var b := x[d1 - i + 1..];
    forall j | 0 <= j < |b| ensures IsDigit(b[j]) {
      assert b[j] == s[d1 + 1 + j];
    }
  }

  /** Over a run of digits, the first dot is the one that ends the run. */
  lemma IndexOfDigits(x: string, k: nat, m: nat)
    requires k <= m < |x| && x[m] == '.'
    requires forall j :: k <= j < m ==> IsDigit(x[j])
    ensures IndexOf(x, '.', k) == m
    decreases m - k
  {
    if k < m {
      IndexOfDigits(x, k + 1, m);
    }
  }

  /** `IdEnd` finds every table identifier that is not followed by a digit. */
  lemma IdEndComplete(s: string, i: nat, x: string, ignoreCase: bool)
    requires IsTableId(x, ignoreCase)
    requires i + |x| <= |s| && s[i..i + |x|] == x
    requires i + |x| == |s| || !IsDigit(s[i + |x|])
    ensures IdEnd(s, i, ignoreCase) == Some(i + |x|)
  {
    var k, m := TableIdParts(x, ignoreCase);
    forall j | 0 <= j < |x| ensures s[i + j] == x[j] {
      assert s[i..i + |x|][j] == s[i + j];
    }
    assert IdLetter(s, i, ignoreCase) == IdLetter(x, 0, ignoreCase);
    forall j | i + k <= j < i + m ensures IsDigit(s[j]) {
      assert s[j] == x[j - i];
    }
    forall j | i + m + 1 <= j < i + |x| ensures IsDigit(s[j]) {
      assert s[j] == x[j - i];
    }
    IdEndOfParts(s, i, i + k, i + m, i + |x|, ignoreCase);
  }

  /** The optional letter up to `k`, digits up to the dot at `d`, digits up to `e`: `IdEnd` ends at `e`. */
  lemma IdEndOfParts(s: string, i: nat, k: nat, d: nat, e: nat, ignoreCase: bool)
    requires k == (if IdLetter(s, i, ignoreCase) then i + 1 else i)
    requires k < d && d + 1 < e <= |s| && s[d] == '.'
    requires forall j :: k <= j < d ==> IsDigit(s[j])
    requires forall j :: d < j < e ==> IsDigit(s[j])
    requires e == |s| || !IsDigit(s[e])
    ensures IdEnd(s, i, ignoreCase) == Some(e)
  {
    DigitsEndOf(s, k, d);
    DigitsEndOf(s, d + 1, e);
  }

  /**
   * An identifier found case-sensitively is found the same way under
   * IGNORECASE: a lower-case letter in front would have left no digits for
   * the case-sensitive `\d+`.
   */
  lemma IdEndIgnoreCase(s: string, i: nat)
    requires i <= |s| && IdEnd(s, i, false).Some?
    ensures IdEnd(s, i, true) == IdEnd(s, i, false)
  {
  }

  /** A table identifier character by character: the optional letter, digits, the dot at `m`, digits. */
  lemma TableIdParts(x: string, ignoreCase: bool) returns (k: nat, m: nat)
    requires IsTableId(x, ignoreCase)
    ensures k == (if IdLetter(x, 0, ignoreCase) then 1 else 0)
    ensures k < m < |x| - 1 && x[m] == '.'
    ensures forall j :: k <= j < m ==> IsDigit(x[j])
    ensures forall j :: m < j < |x| ==> IsDigit(x[j])
  {
    k := if IdLetter(x, 0, ignoreCase) then 1 else 0;
    m := IndexOf(x, '.', k);
    var a := x[k..m];
    forall j | k <= j < m ensures IsDigit(x[j]) {
      assert a[j - k] == x[j];
    }
    var b := x[m + 1..];
    forall j | m < j < |x| ensures IsDigit(x[j]) {
      assert b[j - m - 1] == x[j];
    }
  }

  /** `### Table [A-Z]?\d+\.\d+:` at `p`: the index of its colon. */
  function HeaderColon(s: string, p: nat): (r: Option<nat>)
    requires p <= |s|
    ensures r.Some? ==> p + 13 <= r.value < |s| && s[r.value] == ':'
  {
    if LiteralAt("### Table ", s, p, false) then
      match IdEnd(s, p + 10, false)
      case Some(d) => if d < |s| && s[d] == ':' then Some(d) else None
      case None => None
    else None
  }

  /** One repetition of `\|.*?\|.*?\n` (DOTALL) at `q`: up to the first newline after the second bar. */
  function RowEnd(s: string, q: nat): (r: Option<nat>)
    requires q <= |s|
    ensures r.Some? ==> q < r.value <= |s| && s[r.value - 1] == '\n'
  {
    if q < |s| && s[q] == '|' then
      var j := IndexOf(s, '|', q + 1);
      if j < |s| then
        var k := IndexOf(s, '\n', j + 1);
        if k < |s| then Some(k + 1) else None
      else None
    else None
  }

  /**
   * `(?:\|.*?\|.*?\n)+` at `q`. Nothing follows the group in the pattern, so the
   * greedy repetition keeps the shortest choice for every repetition and stops
   * at the first one that cannot start.
   */
  function RowsEnd(s: string, q: nat): (r: Option<nat>)
    requires q <= |s|
    ensures r.Some? ==> q < r.value <= |s| && s[r.value - 1] == '\n'
    decreases |s| - q
  {
    match RowEnd(s, q)
    case None => None
    case Some(e) =>
      match RowsEnd(s, e)
      case None => Some(e)
      case Some(e2) => Some(e2)
  }

  /**
   * `.*?\n(?:\|.*?\|.*?\n)+` (DOTALL) at `t`: the lazy title stops at the first
   * newline after which rows follow; it crosses newlines until one does.
   */
  function TitleAndRowsEnd(s: string, t: nat): (r: Option<nat>)
    requires t <= |s|
    ensures r.Some? ==> t < r.value <= |s| && s[r.value - 1] == '\n'
    decreases |s| - t
  {
    var n := IndexOf(s, '\n', t);
    if n == |s| then None
    else
      match RowsEnd(s, n + 1)
      case Some(e) => Some(e)
      case None => TitleAndRowsEnd(s, n + 1)
  }

  /** The alternatives of `Mention`, tried in order at `p`. */
  function MentionEnd(s: string, p: nat): (r: Option<nat>)
    requires p <= |s|
    ensures r.Some? ==> p < r.value <= |s|
  {
    if LiteralAt("see table ", s, p, true) && IdEnd(s, p + 10, true).Some? then
      IdEnd(s, p + 10, true)
    else if LiteralAt("refer to table ", s, p, true) && IdEnd(s, p + 15, true).Some? then
      IdEnd(s, p + 15, true)
    else if LiteralAt("table ", s, p, true) && IdEnd(s, p + 6, true).Some? then
      IdEnd(s, p + 6, true)
    else None
  }

  /** `(?:,\d{3})*` at `q`, greedy. */
  function ThousandsEnd(s: string, q: nat): (r: nat)
    requires q <= |s|
    ensures q <= r <= |s|
    decreases |s| - q
  {
    if q + 4 <= |s| && s[q] == ',' && IsDigit(s[q + 1]) && IsDigit(s[q + 2]) && IsDigit(s[q + 3]) then
      ThousandsEnd(s, q + 4)
    else q
  }

  /** The pattern `pat` tried at index `p` of `s`. */
  function MatchAt(pat: Pattern, s: string, p: nat): (r: Option<Hit>)
    requires p <= |s|
    ensures r.Some? ==> r.value.start == p && p < r.value.end <= |s|
  {
    match pat
    case TableBlock => TableBlockAt(s, p)
    case TableTitle => TableTitleAt(s, p)
    case TableIdAfter(prefix, ignoreCase) => TableIdAt(prefix, ignoreCase, s, p)
    case Mention => MentionAt(s, p)
    case BrokenMention => BrokenMentionAt(s, p)
    case Rate => RateAt(s, p)
    case Dollar => DollarAt(s, p)
    case Term => TermAt(s, p)
  }

  /** The dispatch of `MatchAt`, one pattern at a time. */
  lemma MatchAtTableTitle(s: string, p: nat)
    requires p <= |s|
    ensures MatchAt(TableTitle, s, p) == TableTitleAt(s, p)
  {
  }

  lemma MatchAtTableId(prefix: string, ignoreCase: bool, s: string, p: nat)
    requires p <= |s|
    ensures MatchAt(TableIdAfter(prefix, ignoreCase), s, p) == TableIdAt(prefix, ignoreCase, s, p)
  {
  }

  /** A case-sensitive match of a prefix and an identifier: the text there is the prefix, then the identifier. */
  lemma TableIdHit(prefix: string, s: string, p: nat, h: Hit)
    requires p <= |s| && MatchAt(TableIdAfter(prefix, false), s, p) == Some(h)
    ensures IsTableId(h.group, false) && p + |prefix| <= h.end && s[p..h.end] == prefix + h.group
  {
    MatchAtTableId(prefix, false, s, p);
    IdEndSound(s, p + |prefix|, false);
    LiteralAtExact(prefix, s, p);
    assert s[p..h.end] == s[p..p + |prefix|] + s[p + |prefix|..h.end];
  }

  lemma MatchAtMention(s: string, p: nat)
    requires p <= |s|
    ensures MatchAt(Mention, s, p) == MentionAt(s, p)
  {
  }

  function TableBlockAt(s: string, p: nat): (r: Option<Hit>)
    requires p <= |s|
    ensures r.Some? ==> r.value.start == p && p < r.value.end <= |s|
  {
    match HeaderColon(s, p)
    case None => None
    case Some(d) =>
      match TitleAndRowsEnd(s, d + 1)
      case None => None
      case Some(e) => Some(Hit(p, e, s[p..e]))
  }

  /** Without DOTALL the lazy `(.*?)\n` stops at the first newline. */
  function TableTitleAt(s: string, p: nat): (r: Option<Hit>)
    requires p <= |s|
    ensures r.Some? ==> r.value.start == p && p < r.value.end <= |s|
  {
    match HeaderColon(s, p)
    case None => None
    case Some(d) => TitleAfterColon(s, p, d)
  }

  /** The rest of `TableTitleAt` once the header's colon is at `d`: a space, then the line up to its newline. */
  function TitleAfterColon(s: string, p: nat, d: nat): (r: Option<Hit>)
    requires p < d < |s|
    ensures r.Some? ==> r.value.start == p && p < r.value.end <= |s|
  {
    if d + 1 < |s| && s[d + 1] == ' ' then
      var n := IndexOf(s, '\n', d + 2);
      if n < |s| then Some(Hit(p, n + 1, s[d + 2..n])) else None
    else None
  }

  lemma TableTitleAtColon(s: string, p: nat, d: nat)
    requires p <= |s| && HeaderColon(s, p) == Some(d)
    ensures TableTitleAt(s, p) == TitleAfterColon(s, p, d)
  {
  }

  function TableIdAt(prefix: string, ignoreCase: bool, s: string, p: nat): (r: Option<Hit>)
    requires p <= |s|
    ensures r.Some? ==> r.value.start == p && p < r.value.end <= |s|
  {
    if LiteralAt(prefix, s, p, ignoreCase) then
      match IdEnd(s, p + |prefix|, ignoreCase)
      case None => None
      case Some(d) => Some(Hit(p, d, s[p + |prefix|..d]))
    else None
  }

  function MentionAt(s: string, p: nat): (r: Option<Hit>)
    requires p <= |s|
    ensures r.Some? ==> r.value.start == p && p < r.value.end <= |s|
  {
    match MentionEnd(s, p)
    case None => None
    case Some(e) => Some(Hit(p, e, s[p..e]))
  }

  /** The negative lookahead: `\s+` cannot give back whitespace to let the identifier start earlier. */
  function BrokenMentionAt(s: string, p: nat): (r: Option<Hit>)
    requires p <= |s|
    ensures r.Some? ==> r.value.start == p && p < r.value.end <= |s|
  {
    if LiteralAt("see table", s, p, true) then
      var w := SpacesEnd(s, p + 9);
      if w > p + 9 && IdEnd(s, w, true).Some? then None
      else Some(Hit(p, p + 9, s[p..p + 9]))
    else None
  }

  /**
   * The only way `(\d+\.?\d*)\s*%` matches is the greedy one: giving back a digit,
   * the dot or a space leaves a digit, a dot or a space where `%` is needed.
   */
  function RateAt(s: string, p: nat): (r: Option<Hit>)
    requires p <= |s|
    ensures r.Some? ==> r.value.start == p && p < r.value.end <= |s|
  {
    if p < |s| && IsDigit(s[p]) then
      var a := DigitsEnd(s, p);
      var b := if a < |s| && s[a] == '.' then DigitsEnd(s, a + 1) else a;
      var c := SpacesEnd(s, b);
      if c < |s| && s[c] == '%' then Some(Hit(p, c + 1, s[p..b])) else None
    else None
  }

  /** `\d{1,3}` takes at most three digits; nothing after the group forces any backtracking. */
  function DollarAt(s: string, p: nat): (r: Option<Hit>)
    requires p <= |s|
    ensures r.Some? ==> r.value.start == p && p < r.value.end <= |s|
  {
    if p + 1 < |s| && s[p] == '$' && IsDigit(s[p + 1]) then
      var d := DigitsEnd(s, p + 1);
      var a := if d <= p + 4 then d else p + 4;
      var c := ThousandsEnd(s, a);
      var e := if c + 3 <= |s| && s[c] == '.' && IsDigit(s[c + 1]) && IsDigit(s[c + 2]) then c + 3 else c;
      Some(Hit(p, e, s[p + 1..e]))
    else None
  }

  /** Giving back a digit or a space leaves a digit or a space where `m` or `y` is needed. */
  function TermAt(s: string, p: nat): (r: Option<Hit>)
    requires p <= |s|
    ensures r.Some? ==> r.value.start == p && p < r.value.end <= |s|
  {
    if p < |s| && IsDigit(s[p]) then
      var a := DigitsEnd(s, p);
      var c := SpacesEnd(s, a);
      var w := if LiteralAt("month", s, c, true) then c + 5
               else if LiteralAt("year", s, c, true) then c + 4
               else 0;
      if w == 0 then None
      else
        var e := if w < |s| && LowerChar(s[w]) == 's' then w + 1 else w;
        Some(Hit(p, e, s[p..a]))
    else None
  }

  /** Per-position outcomes of a pattern: a hit at index `q` starts at `q` and ends inside the text. */
  predicate WellFormed(ms: seq<Option<Hit>>) {
    forall q :: 0 <= q < |ms| && ms[q].Some? ==> ms[q].value.start == q < ms[q].value.end <= |ms|
  }

  /** The outcome of trying the pattern at each index of `s`. */
  function Outcomes(pat: Pattern, s: string): nat -> Option<Hit> {
    (q: nat) => if q <= |s| then MatchAt(pat, s, q) else None
  }

  /** `[f(0), ..., f(n - 1)]`, built from the left. */
  function Tabulate<T>(f: nat -> T, n: nat): (r: seq<T>)
    ensures |r| == n
  {
    if n == 0 then [] else Tabulate(f, n - 1) + [f(n - 1)]
  }

  lemma {:induction false} TabulateAt<T>(f: nat -> T, n: nat, q: nat)
    requires q < n
    ensures Tabulate(f, n)[q] == f(q)
    decreases n
  {
    if q < n - 1 {
      TabulateAt(f, n - 1, q);
    }
  }

  /** The pattern tried at every index of `s`. */
  function Attempts(pat: Pattern, s: string): (ms: seq<Option<Hit>>)
    ensures |ms| == |s| && WellFormed(ms)
  {
    OutcomesWellFormed(pat, s);
    Tabulate(Outcomes(pat, s), |s|)
  }

  lemma OutcomesWellFormed(pat: Pattern, s: string)
    ensures WellFormed(Tabulate(Outcomes(pat, s), |s|))
  {
    var ms := Tabulate(Outcomes(pat, s), |s|);
    forall q | 0 <= q < |ms| && ms[q].Some? ensures ms[q].value.start == q < ms[q].value.end <= |ms| {
      TabulateAt(Outcomes(pat, s), |s|, q);
    }
  }

  lemma AttemptAt(pat: Pattern, s: string, q: nat)
    requires q < |s|
    ensures Attempts(pat, s)[q] == MatchAt(pat, s, q)
  {
    TabulateAt(Outcomes(pat, s), |s|, q);
  }

  /** The scan of `finditer` from index `p`: take a hit and resume at its end, or move one index on. */
  function Scan(ms: seq<Option<Hit>>, p: nat): seq<Hit>
    requires WellFormed(ms) && p <= |ms|
    decreases |ms| - p
  {
    if p == |ms| then []
    else
      match ms[p]
      case Some(h) => [h] + Scan(ms, h.end)
      case None => Scan(ms, p + 1)
  }

  /** `finditer` from index `p`. */
  function FindIter(pat: Pattern, s: string, p: nat): seq<Hit>
    requires p <= |s|
  {
    Scan(Attempts(pat, s), p)
  }

  /** Every hit starts at or after `p`, ends inside the text and is the outcome at its own start. */
  predicate HitsFrom(ms: seq<Option<Hit>>, p: nat, hits: seq<Hit>) {
    forall i :: 0 <= i < |hits| ==>
      p <= hits[i].start < hits[i].end <= |ms| && ms[hits[i].start] == Some(hits[i])
  }

  /** The hits come in order and do not overlap. */
  predicate Ordered(hits: seq<Hit>) {
    forall i, j :: 0 <= i < j < |hits| ==> hits[i].end <= hits[j].start
  }

  lemma {:induction false} ScanSound(ms: seq<Option<Hit>>, p: nat)
    requires WellFormed(ms) && p <= |ms|
    ensures HitsFrom(ms, p, Scan(ms, p)) && Ordered(Scan(ms, p))
    decreases |ms| - p
  {
    if p < |ms| {
      match ms[p]
      case Some(h) =>
        ScanSound(ms, h.end);
        var rest := Scan(ms, h.end);
        var hits := [h] + rest;
        assert Scan(ms, p) == hits;
        forall i | 0 <= i < |hits|
          ensures p <= hits[i].start < hits[i].end <= |ms| && ms[hits[i].start] == Some(hits[i])
        {
          if i > 0 {
            assert hits[i] == rest[i - 1];
          }
        }
        forall i, j | 0 <= i < j < |hits| ensures hits[i].end <= hits[j].start {
          assert hits[j] == rest[j - 1];
          if i > 0 {
            assert hits[i] == rest[i - 1];
          }
        }
      case None =>
        ScanSound(ms, p + 1);
        assert Scan(ms, p) == Scan(ms, p + 1);
    }
  }

  /**
   * `finditer` misses nothing: every index that no hit covers is one where the
   * pattern does not match.
   */
  lemma {:induction false} ScanComplete(ms: seq<Option<Hit>>, p: nat, q: nat)
    requires WellFormed(ms) && p <= q < |ms|
    requires forall h :: h in Scan(ms, p) ==> !(h.start <= q < h.end)
    ensures ms[q].None?
    decreases |ms| - p
  {
    match ms[p]
    case Some(h) =>
      assert h in Scan(ms, p);
      ScanComplete(ms, h.end, q);
    case None =>
      if p < q {
        ScanComplete(ms, p + 1, q);
      }
  }

  lemma FindIterSound(pat: Pattern, s: string, p: nat)
    requires p <= |s|
    ensures var hits := FindIter(pat, s, p);
      forall i :: 0 <= i < |hits| ==> p <= hits[i].start < hits[i].end <= |s| && MatchAt(pat, s, hits[i].start) == Some(hits[i])
    ensures Ordered(FindIter(pat, s, p))
  {
    var ms := Attempts(pat, s);
    ScanSound(ms, p);
    var hits := Scan(ms, p);
    forall i | 0 <= i < |hits| ensures MatchAt(pat, s, hits[i].start) == Some(hits[i]) {
      AttemptAt(pat, s, hits[i].start);
    }
  }

  /** One hit of `finditer`: a match at its own start. */
  lemma FindIterHit(pat: Pattern, s: string, p: nat, i: nat)
    requires p <= |s| && i < |FindIter(pat, s, p)|
    ensures var h := FindIter(pat, s, p)[i];
      p <= h.start < h.end <= |s| && MatchAt(pat, s, h.start) == Some(h)
  {
    var ms := Attempts(pat, s);
    ScanSound(ms, p);
    AttemptAt(pat, s, FindIter(pat, s, p)[i].start);
  }

  /** The groups of the hits, which is what `findall` returns for a pattern with one group. */
  function Groups(hits: seq<Hit>): (r: seq<string>)
    ensures |r| == |hits|
    ensures forall i :: 0 <= i < |hits| ==> r[i] == hits[i].group
  {
    seq(|hits|, i requires 0 <= i < |hits| => hits[i].group)
  }

  /** `re.findall(pattern, s)` for a pattern with (at most) one group. */
  function FindAll(pat: Pattern, s: string): seq<string> {
    Groups(FindIter(pat, s, 0))
  }

  /** `re.search(pattern, s)`: the first hit, if any. */
  function Search(pat: Pattern, s: string): Option<Hit> {
    var hits := FindIter(pat, s, 0);
    if hits == [] then None else Some(hits[0])
  }

  /** A match at index 0 is the hit `re.search` returns. */
  lemma SearchAtStart(pat: Pattern, s: string, h: Hit)
    requires 0 < |s| && MatchAt(pat, s, 0) == Some(h)
    ensures Search(pat, s) == Some(h)
  {
    var ms := Attempts(pat, s);
    AttemptAt(pat, s, 0);
    ScanFirst(ms, h);
  }

  lemma ScanFirst(ms: seq<Option<Hit>>, h: Hit)
    requires WellFormed(ms) && 0 < |ms| && ms[0] == Some(h)
    ensures Scan(ms, 0) != [] && Scan(ms, 0)[0] == h
  {
  }

  /** A match at `q` with no match anywhere before it is the hit `re.search` returns. */
  lemma SearchAfterMisses(pat: Pattern, s: string, q: nat, h: Hit)
    requires q < |s| && MatchAt(pat, s, q) == Some(h)
    requires forall k :: 0 <= k < q ==> MatchAt(pat, s, k).None?
    ensures Search(pat, s) == Some(h)
  {
    var ms := Attempts(pat, s);
    forall k | 0 <= k < q ensures ms[k].None? {
      AttemptAt(pat, s, k);
    }
    ScanSkip(ms, 0, q);
    AttemptAt(pat, s, q);
    ScanAt(ms, q, h);
  }

  lemma ScanAt(ms: seq<Option<Hit>>, q: nat, h: Hit)
    requires WellFormed(ms) && q < |ms| && ms[q] == Some(h)
    ensures Scan(ms, q) != [] && Scan(ms, q)[0] == h
  {
  }

  /** The hit `Search` returns is a match at its own start. */
  lemma SearchSound(pat: Pattern, s: string)
    ensures var r := Search(pat, s);
      r.Some? ==> r.value.start < r.value.end <= |s| && MatchAt(pat, s, r.value.start) == r
  {
    FindIterSound(pat, s, 0);
  }

  /** No hit at any index in `[p, q)` means the scan may start at `q` instead. */
  lemma {:induction false} ScanSkip(ms: seq<Option<Hit>>, p: nat, q: nat)
    requires WellFormed(ms) && p <= q <= |ms|
    requires forall k :: p <= k < q ==> ms[k].None?
    ensures Scan(ms, p) == Scan(ms, q)
    decreases q - p
  {
    if p < q {
      ScanSkip(ms, p + 1, q);
    }
  }

  /** The decimal value of a digit string. */
  function DigitsValue(ds: string): nat
    decreases |ds|
  {
    if ds == [] then 0
    else DigitsValue(ds[..|ds| - 1]) * 10 + (if IsDigit(ds[|ds| - 1]) then ds[|ds| - 1] as int - '0' as int else 0)
  }

  function Pow10(n: nat): (r: nat)
    ensures r > 0
  {
    if n == 0 then 1 else 10 * Pow10(n - 1)
  }

  /** Python's `float(g)` for a string of the shape `\d+(\.\d*)?`, as an exact rational. */
  function DecimalValue(g: string): real {
    var k := IndexOf(g, '.', 0);
    if k == |g| then DigitsValue(g) as real
    else DigitsValue(g[..k]) as real + DigitsValue(g[k + 1..]) as real / Pow10(|g| - k - 1) as real
  }

  /** Python's `s.replace(c, '')`. */
  function Remove(s: string, c: char): (r: string)
    ensures c !in r
    ensures |r| <= |s|
    decreases |s|
  {
    if s == [] then [] else (if s[0] == c then [] else [s[0]]) + Remove(s[1..], c)
  }
}
