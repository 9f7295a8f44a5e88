/** The optional value used wherever a Python dictionary key may be absent or a lookup may fail. */
module Wrappers {
  datatype Option<T> = None | Some(value: T)
}

/**
 * String operations of the Python standard library that the core relies on:
 * `in` on strings, `lower()`, `upper()`, `strip()`, `split(sep)`, `sep.join(...)`,
 * `startswith` and the decimal rendering of an `int` inside an f-string.
 * Case mapping is ASCII only; whitespace is Python's `str.isspace` set.
 */
module Text {

  /** Python's `sub in s`. */
  predicate Contains(s: string, sub: string) {
    exists i | 0 <= i <= |s| :: OccursAt(s, sub, i)
  }

  /** `any(sub in s for sub in subs)`. */
  predicate ContainsAny(s: string, subs: seq<string>) {
    exists i | 0 <= i < |subs| :: Contains(s, subs[i])
  }

  /** `sub` occurs in `s` starting at index `i`. */
  predicate OccursAt(s: string, sub: string, i: nat) {
    i + |sub| <= |s| && s[i..i + |sub|] == sub
  }

  /** Python's `s.startswith(p)`. */
  predicate StartsWith(s: string, p: string) {
    |p| <= |s| && s[..|p|] == p
  }

  lemma ContainsAt(s: string, i: nat, sub: string)
    requires i + |sub| <= |s| && s[i..i + |sub|] == sub
    ensures Contains(s, sub)
  {
    assert OccursAt(s, sub, i);
  }

  lemma ContainsPrefix(s: string, sub: string)
    requires StartsWith(s, sub)
    ensures Contains(s, sub)
  {
    ContainsAt(s, 0, sub);
  }

  lemma ContainsAppendLeft(a: string, b: string, sub: string)
    requires Contains(a, sub)
    ensures Contains(a + b, sub)
  {
    var i :| 0 <= i <= |a| && OccursAt(a, sub, i);
    assert (a + b)[i..i + |sub|] == a[i..i + |sub|];
    assert OccursAt(a + b, sub, i);
  }

  lemma ContainsAppendRight(a: string, b: string, sub: string)
    requires Contains(b, sub)
    ensures Contains(a + b, sub)
  {
    var i :| 0 <= i <= |b| && OccursAt(b, sub, i);
    assert (a + b)[|a| + i..|a| + i + |sub|] == b[i..i + |sub|];
    assert OccursAt(a + b, sub, |a| + i);
  }

  lemma ContainsMiddle(a: string, b: string, c: string)
    ensures Contains(a + b + c, b)
  {
    ContainsAt(a + b + c, |a|, b);
  }

  /** Substring containment is transitive. */
  lemma ContainsTrans(s: string, mid: string, sub: string)
    requires Contains(s, mid) && Contains(mid, sub)
    ensures Contains(s, sub)
  {
    var i :| 0 <= i <= |s| && OccursAt(s, mid, i);
    var j :| 0 <= j <= |mid| && OccursAt(mid, sub, j);
    var w := s[i + j..i + j + |sub|];
    forall k | 0 <= k < |sub| ensures w[k] == sub[k] {
      assert w[k] == s[i + j + k] == mid[j + k] == sub[k];
    }
    assert OccursAt(s, sub, i + j);
  }

  /** Python's `sub in s`, witnessed character by character. */
  lemma ContainsAtChars(s: string, i: nat, sub: string)
    requires i + |sub| <= |s| && forall k | 0 <= k < |sub| :: s[i + k] == sub[k]
    ensures Contains(s, sub)
  {
    assert s[i..i + |sub|] == sub;
    ContainsAt(s, i, sub);
  }

  /** A character of `sub` that `s` never holds rules out `sub in s`. */
  lemma CharAbsent(s: string, sub: string, k: nat)
    requires k < |sub|
    requires forall i | 0 <= i < |s| :: s[i] != sub[k]
    ensures !Contains(s, sub)
  {
    if Contains(s, sub) {
      var i :| 0 <= i <= |s| && OccursAt(s, sub, i);
      CharAt(s, sub, i, k);
      assert false;
    }
  }

  /** Two consecutive characters of `sub` that never stand side by side in `s` rule out `sub in s`. */
  lemma PairAbsent(s: string, sub: string, k: nat)
    requires k + 1 < |sub|
    requires forall i | 0 <= i < |s| - 1 :: !(s[i] == sub[k] && s[i + 1] == sub[k + 1])
    ensures !Contains(s, sub)
  {
    if Contains(s, sub) {
      var i :| 0 <= i <= |s| && OccursAt(s, sub, i);
      PairAt(s, sub, i, k);
      assert false;
    }
  }

  lemma PairAt(s: string, sub: string, i: nat, k: nat)
    requires OccursAt(s, sub, i) && k + 1 < |sub|
    ensures s[i + k] == sub[k] && s[i + k + 1] == sub[k + 1]
  {
  }

  /**
   * When `b` starts with a character that `sub` does not hold, an occurrence
   * of `sub` in `a + b` cannot straddle the boundary.
   */
  lemma ContainsAcross(a: string, b: string, sub: string)
    requires |b| > 0 && forall k | 0 <= k < |sub| :: sub[k] != b[0]
    ensures Contains(a + b, sub) <==> Contains(a, sub) || Contains(b, sub)
  {
    if Contains(a + b, sub) {
      var i :| 0 <= i <= |a + b| && OccursAt(a + b, sub, i);
      if i + |sub| <= |a| {
        assert a[i..i + |sub|] == (a + b)[i..i + |sub|];
        assert OccursAt(a, sub, i);
      } else if i >= |a| {
        assert b[i - |a|..i - |a| + |sub|] == (a + b)[i..i + |sub|];
        assert OccursAt(b, sub, i - |a|);
      } else {
        CharAt(a + b, sub, i, |a| - i);
        assert false;
      }
    }
    if Contains(a, sub) {
      ContainsAppendLeft(a, b, sub);
    }
    if Contains(b, sub) {
      ContainsAppendRight(a, b, sub);
    }
  }

  function LowerChar(c: char): char {
    if 'A' <= c <= 'Z' then (c as int + 32) as char else c
  }

  function UpperChar(c: char): char {
    if 'a' <= c <= 'z' then (c as int - 32) as char else c
  }

  /** Python's `s.lower()`, restricted to ASCII letters. */
  function Lower(s: string): (r: string)
    ensures |r| == |s|
    ensures forall i :: 0 <= i < |s| ==> r[i] == LowerChar(s[i])
  {
    seq(|s|, i requires 0 <= i < |s| => LowerChar(s[i]))
  }

  /** Python's `s.upper()`, restricted to ASCII letters. */
  function Upper(s: string): (r: string)
    ensures |r| == |s|
    ensures forall i :: 0 <= i < |s| ==> r[i] == UpperChar(s[i])
  {
    seq(|s|, i requires 0 <= i < |s| => UpperChar(s[i]))
  }

  /** A lower-cased string holds no capital letter, so it contains nothing that does. */
  lemma LowerHasNoCapital(s: string, sub: string, k: nat)
    requires k < |sub| && 'A' <= sub[k] <= 'Z'
    ensures !Contains(Lower(s), sub)
  {
    if Contains(Lower(s), sub) {
      var i :| 0 <= i <= |Lower(s)| && OccursAt(Lower(s), sub, i);
      CharAt(Lower(s), sub, i, k);
      assert false;
    }
  }

  lemma CharAt(s: string, sub: string, i: nat, k: nat)
    requires OccursAt(s, sub, i) && k < |sub|
    ensures s[i + k] == sub[k]
  {
  }

  /** A lower-case letter of `sub` that `s` holds in neither case rules out `sub in s.lower()`. */
  lemma LowerLacksLetter(s: string, sub: string, k: nat)
    requires k < |sub| && 'a' <= sub[k] <= 'z'
    requires forall i | 0 <= i < |s| :: s[i] != sub[k] && s[i] != UpperChar(sub[k])
    ensures !Contains(Lower(s), sub)
  {
    forall i | 0 <= i < |s| ensures Lower(s)[i] != sub[k] {
      if 'A' <= s[i] <= 'Z' {
        assert UpperChar(LowerChar(s[i])) == s[i];
      }
    }
    CharAbsent(Lower(s), sub, k);
  }

  /** A string without capital letters is its own lower-case form. */
  lemma LowerFixed(s: string)
    requires forall i | 0 <= i < |s| :: !('A' <= s[i] <= 'Z')
    ensures Lower(s) == s
  {
  }

  lemma LowerAppend(a: string, b: string)
    ensures Lower(a + b) == Lower(a) + Lower(b)
  {
  }

  /** Python's `str.isspace` for one character (also the class `\s` of the `re` module). */
  predicate IsSpace(c: char) {
    ('\t' <= c <= '\r') || ('\U{001C}' <= c <= ' ') || c == '\U{0085}' || c == '\U{00A0}'
    || c == '\U{1680}' || ('\U{2000}' <= c <= '\U{200A}') || c == '\U{2028}' || c == '\U{2029}'
    || c == '\U{202F}' || c == '\U{205F}' || c == '\U{3000}'
  }

  /** The slice of `s` left after removing its leading whitespace. */
  function TrimStart(s: string): (r: string)
    ensures |r| <= |s| && r == s[|s| - |r|..]
  {
    if |s| > 0 && IsSpace(s[0]) then TrimStart(s[1..]) else s
  }

  /** The slice of `s` left after removing its trailing whitespace. */
  function TrimEnd(s: string): (r: string)
    ensures |r| <= |s| && r == s[..|r|]
  {
    if |s| > 0 && IsSpace(s[|s| - 1]) then TrimEnd(s[..|s| - 1]) else s
  }

  lemma {:induction false} TrimStartSound(s: string)
    ensures forall k :: 0 <= k < |s| - |TrimStart(s)| ==> IsSpace(s[k])
    ensures TrimStart(s) == "" || !IsSpace(TrimStart(s)[0])
    decreases |s|
  {
    if |s| > 0 && IsSpace(s[0]) {
      TrimStartSound(s[1..]);
    }
  }

  lemma {:induction false} TrimEndSound(s: string)
    ensures forall k :: |TrimEnd(s)| <= k < |s| ==> IsSpace(s[k])
    ensures TrimEnd(s) == "" || !IsSpace(TrimEnd(s)[|TrimEnd(s)| - 1])
    decreases |s|
  {
    if |s| > 0 && IsSpace(s[|s| - 1]) {
      TrimEndSound(s[..|s| - 1]);
    }
  }

  /**
   * Python's `s.strip()`: the slice of `s` left after removing the leading
   * and trailing whitespace.
   */
  function Strip(s: string): string {
    TrimEnd(TrimStart(s))
  }

  /** Every character of `s` is whitespace (true of the empty string). */
  predicate AllSpace(s: string) {
    forall k | 0 <= k < |s| :: IsSpace(s[k])
  }

  /**
   * What `strip()` returns neither begins nor ends with whitespace, and is a
   * piece of its input: `s` is some whitespace, the result, then some more
   * whitespace. The result is empty exactly when `s` is all whitespace.
   */
  lemma StripSound(s: string)
    ensures var r := Strip(s); r == "" || (!IsSpace(r[0]) && !IsSpace(r[|r| - 1]))
    ensures Contains(s, Strip(s))
    ensures var lead := |s| - |TrimStart(s)|; var tail := lead + |Strip(s)|;
      && tail <= |s| && s == s[..lead] + Strip(s) + s[tail..]
      && (forall k | 0 <= k < lead :: IsSpace(s[k]))
      && (forall k | tail <= k < |s| :: IsSpace(s[k]))
    ensures Strip(s) == "" <==> AllSpace(s)
  {
    StripEnds(s);
    StripContained(s);
    StripSplit(s);
    StripLead(s);
    StripTail(s);
    StripBlank(s);
  }

  /** `s` is its leading whitespace, what `strip()` keeps, and its trailing whitespace. */
  lemma StripSplit(s: string)
    ensures var lead := |s| - |TrimStart(s)|; var tail := lead + |Strip(s)|;
      tail <= |s| && s == s[..lead] + Strip(s) + s[tail..]
  {
    StripOutcomes(s, TrimStart(s), Strip(s));
  }

  /** The split of `s`, stated over the outcomes of the two trims. */
  lemma StripOutcomes(s: string, t: string, r: string)
    requires t == TrimStart(s) && r == TrimEnd(t)
    ensures var lead := |s| - |t|;
      lead + |r| <= |s| && s == s[..lead] + r + s[lead + |r|..] && s[lead..lead + |r|] == r
  {
    SliceInSuffix(s, t, r);
  }

  /** A prefix `r` of a suffix `t` of `s` splits `s` in three. */
  lemma SliceInSuffix(s: string, t: string, r: string)
    requires |t| <= |s| && t == s[|s| - |t|..] && |r| <= |t| && r == t[..|r|]
    ensures var lead := |s| - |t|; s == s[..lead] + r + s[lead + |r|..] && s[lead..lead + |r|] == r
  {
    var lead := |s| - |t|;
    assert t == r + t[|r|..];
    SplitThree(s, lead, r, t[|r|..]);
    assert s[lead..lead + |r|] == s[lead..][..|r|];
  }

  /** What `strip()` drops at the start is whitespace. */
  lemma StripLead(s: string)
    ensures forall k | 0 <= k < |s| - |TrimStart(s)| :: IsSpace(s[k])
  {
    TrimStartSound(s);
  }

  /** What `strip()` drops at the end is whitespace. */
  lemma StripTail(s: string)
    ensures var tail := |s| - |TrimStart(s)| + |Strip(s)|;
      tail <= |s| && forall k | tail <= k < |s| :: IsSpace(s[k])
  {
    var t := TrimStart(s);
    TrimEndSound(t);
    SpacesAtEnd(s, t, TrimEnd(t));
  }

  /** Whitespace at the end of a suffix `t` of `s`, past its first `|r|` characters, is whitespace of `s`. */
  lemma SpacesAtEnd(s: string, t: string, r: string)
    requires |r| <= |t| <= |s| && t == s[|s| - |t|..]
    requires forall k :: |r| <= k < |t| ==> IsSpace(t[k])
    ensures forall k | |s| - |t| + |r| <= k < |s| :: IsSpace(s[k])
  {
    forall k | |s| - |t| + |r| <= k < |s| ensures IsSpace(s[k]) {
      assert s[k] == t[k - (|s| - |t|)];
    }
  }

  lemma SplitThree(s: string, lead: nat, r: string, rest: string)
    requires lead <= |s| && s[lead..] == r + rest
    ensures lead + |r| <= |s| && s == s[..lead] + r + s[lead + |r|..] && s[lead + |r|..] == rest
  {
    assert s == s[..lead] + s[lead..];
    assert s[lead + |r|..] == s[lead..][|r|..];
  }

  lemma StripBlank(s: string)
    ensures Strip(s) == "" <==> AllSpace(s)
  {
    var t := TrimStart(s);
    var lead := |s| - |t|;
    TrimStartSound(s);
    StripEnds(s);
    if Strip(s) == "" {
      TrimEndSound(t);
      assert t == "";
    } else {
      assert Strip(s)[0] == t[0] == s[lead];
    }
  }

  lemma StripEnds(s: string)
    ensures var r := Strip(s); r == "" || (!IsSpace(r[0]) && !IsSpace(r[|r| - 1]))
  {
    var t := TrimStart(s);
    var r := TrimEnd(t);
    TrimStartSound(s);
    TrimEndSound(t);
    assert r != "" ==> t[0] == r[0];
  }

  lemma StripContained(s: string)
    ensures Contains(s, Strip(s))
  {
    StripOutcomes(s, TrimStart(s), Strip(s));
    ContainsAt(s, |s| - |TrimStart(s)|, Strip(s));
  }

  /** Python's `s[i:j]` for non-negative bounds: both are clamped to the length. */
  function Slice(s: string, i: nat, j: nat): (r: string)
    ensures i < j && i < |s| ==> r == s[i..if j <= |s| then j else |s|]
    ensures (i >= j || i >= |s|) ==> r == ""
  {
    if i >= j || i >= |s| then "" else s[i..if j <= |s| then j else |s|]
  }

  /** The index of the first `c` at or after `i`, or `|s|` when there is none. */
  function IndexOf(s: string, c: char, i: nat): (k: nat)
    requires i <= |s|
    ensures i <= k <= |s|
    ensures k < |s| ==> s[k] == c
    decreases |s| - i
  {
    if i == |s| || s[i] == c then i else IndexOf(s, c, i + 1)
  }

  /** No `c` lies between `i` and the index `IndexOf` finds. */
  lemma {:induction false} IndexOfSkips(s: string, c: char, i: nat)
    requires i <= |s|
    ensures forall j :: i <= j < IndexOf(s, c, i) ==> s[j] != c
    decreases |s| - i
  {
    if i < |s| && s[i] != c {
      IndexOfSkips(s, c, i + 1);
    }
  }

  /** `IndexOf` finds the first `c` at or after `i`. */
  lemma {:induction false} IndexOfFirst(s: string, c: char, i: nat, m: nat)
    requires i <= m < |s| && s[m] == c
    requires forall j :: i <= j < m ==> s[j] != c
    ensures IndexOf(s, c, i) == m
    decreases m - i
  {
    if i < m {
      IndexOfFirst(s, c, i + 1, m);
    }
  }

  /** Python's `sep.join(parts)`. */
  function Join(sep: string, parts: seq<string>): string
    decreases |parts|
  {
    if |parts| == 0 then ""
    else if |parts| == 1 then parts[0]
    else parts[0] + sep + Join(sep, parts[1..])
  }

  lemma JoinLength(sep: string, parts: seq<string>)
    requires |parts| > 0
    ensures |Join(sep, parts)| == SumLengths(parts) + (|parts| - 1) * |sep|
    decreases |parts|
  {
    if |parts| > 1 {
      JoinLength(sep, parts[1..]);
    }
  }

  function SumLengths(parts: seq<string>): nat
    decreases |parts|
  {
    if |parts| == 0 then 0 else |parts[0]| + SumLengths(parts[1..])
  }

  /**
   * Python's `s.split(sep)` for a one-character separator: the unique list of
   * separator-free pieces that `sep.join` puts back together into `s`.
   */
  function Split(s: string, sep: char): (parts: seq<string>)
    ensures |parts| >= 1
    ensures forall i :: 0 <= i < |parts| ==> sep !in parts[i]
    ensures Join([sep], parts) == s
    decreases |s|
  {
    var k := IndexOf(s, sep, 0);
    IndexOfSkips(s, sep, 0);
    if k == |s| then
      assert sep !in s by {
        forall j | 0 <= j < |s| ensures s[j] != sep { }
      }
      [s]
    else
      var rest := Split(s[k + 1..], sep);
      assert sep !in s[..k] by {
        forall j | 0 <= j < k ensures s[..k][j] != sep { }
      }
      assert s == s[..k] + [sep] + s[k + 1..];
      [s[..k]] + rest
  }

  function DigitChar(d: nat): char
    requires d < 10
  {
    ['0', '1', '2', '3', '4', '5', '6', '7', '8', '9'][d]
  }

  /** The decimal rendering of a natural number, as an f-string shows it. */
  function NatToString(n: nat): (r: string)
    ensures |r| > 0
    ensures forall i :: 0 <= i < |r| ==> '0' <= r[i] <= '9'
    decreases n
  {
    if n < 10 then [DigitChar(n)] else NatToString(n / 10) + [DigitChar(n % 10)]
  }
}
