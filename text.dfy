/** The string operations of JavaScript that the core relies on (trim, case mapping,
    includes/startsWith, indexOf, split, join, regular-expression run replacement and
    number-to-string), restated over `seq<char>`.  Case mapping and whitespace cover the
    ASCII range only. */
module Text {
  import opened Wrappers
  import opened Lists

  // ---------------------------------------------------------------------------
  // Character classes

  /** The ASCII characters `String.prototype.trim` removes and `\s` matches. */
  predicate IsWhite(c: char) {
    c == ' ' || c == '\t' || c == '\n' || c == '\r' || c as int == 11 || c as int == 12
  }

  /** The class `[a-z0-9]`. */
  predicate IsLowerAlnum(c: char) {
    ('a' <= c <= 'z') || ('0' <= c <= '9')
  }

  predicate IsDigit(c: char) {
    '0' <= c <= '9'
  }

  predicate IsHexDigit(c: char) {
    IsDigit(c) || ('a' <= c <= 'f') || ('A' <= c <= 'F')
  }

  function LowerChar(c: char): (d: char)
    ensures !('A' <= d <= 'Z')
    ensures !('A' <= c <= 'Z') ==> d == c
  {
    if 'A' <= c <= 'Z' then (c as int + 32) as char else c
  }

  function UpperChar(c: char): (d: char)
    ensures !('a' <= d <= 'z')
    ensures !('a' <= c <= 'z') ==> d == c
  {
    if 'a' <= c <= 'z' then (c as int - 32) as char else c
  }

  // ---------------------------------------------------------------------------
  // Case mapping

  /** `s.toLowerCase()` on the ASCII letters. */
  function ToLower(s: string): (r: string)
    ensures |r| == |s|
    ensures forall i :: 0 <= i < |s| ==> r[i] == LowerChar(s[i])
  {
    seq(|s|, i requires 0 <= i < |s| => LowerChar(s[i]))
  }

  /** `s.toUpperCase()` on the ASCII letters. */
  function ToUpper(s: string): (r: string)
    ensures |r| == |s|
    ensures forall i :: 0 <= i < |s| ==> r[i] == UpperChar(s[i])
  {
    seq(|s|, i requires 0 <= i < |s| => UpperChar(s[i]))
  }

  /** A string without lower-case letters is its own upper case. */
  lemma UpperOfUpper(s: string)
    requires forall i :: 0 <= i < |s| ==> !('a' <= s[i] <= 'z')
    ensures ToUpper(s) == s
  {
  }

  lemma ToLowerIdempotent(s: string)
    ensures ToLower(ToLower(s)) == ToLower(s)
  {
  }

  lemma LowerOfUpper(s: string)
    ensures ToLower(ToUpper(s)) == ToLower(s)
  {
  }

  lemma ToLowerAppend(a: string, b: string)
    ensures ToLower(a + b) == ToLower(a) + ToLower(b)
  {
    assert forall i :: 0 <= i < |a + b| ==> (a + b)[i] == if i < |a| then a[i] else b[i - |a|];
  }

  // ---------------------------------------------------------------------------
  // Trimming

  /** How many leading characters satisfy `p`. */
  function LeadingCount(s: string, p: char -> bool): (n: nat)
    ensures n <= |s| && (n == |s| || !p(s[n]))
    ensures forall i :: 0 <= i < n ==> p(s[i])
  {
    if s != [] && p(s[0]) then
      var n := LeadingCount(s[1..], p);
      assert forall i :: 1 <= i < n + 1 ==> s[1..][i - 1] == s[i];
      n + 1
    else 0
  }

  /** Where the trailing run of characters satisfying `p` starts. */
  function TrailingStart(s: string, p: char -> bool): (k: nat)
    ensures k <= |s| && (k == 0 || !p(s[k - 1]))
    ensures forall i :: k <= i < |s| ==> p(s[i])
  {
    if s != [] && p(s[|s| - 1]) then
      var k := TrailingStart(s[..|s| - 1], p);
      assert forall i :: 0 <= i < |s| - 1 ==> s[..|s| - 1][i] == s[i];
      k
    else |s|
  }

  /** Drops the leading characters satisfying `p`. */
  function TrimStartBy(s: string, p: char -> bool): (r: string)
    ensures |r| <= |s| && forall i :: 0 <= i < |r| ==> r[i] == s[|s| - |r| + i]
    ensures r == [] || !p(r[0])
    ensures forall i :: 0 <= i < |s| - |r| ==> p(s[i])
  {
    s[LeadingCount(s, p)..]
  }

  /** Drops the trailing characters satisfying `p`. */
  function TrimEndBy(s: string, p: char -> bool): (r: string)
    ensures |r| <= |s| && forall i :: 0 <= i < |r| ==> r[i] == s[i]
    ensures r == [] || !p(r[|r| - 1])
    ensures forall i :: |r| <= i < |s| ==> p(s[i])
  {
    s[..TrailingStart(s, p)]
  }

  /** Drops the leading and trailing characters satisfying `p`. */
  function TrimBy(s: string, p: char -> bool): (r: string)
    ensures |r| <= |s|
    ensures r == [] || (!p(r[0]) && !p(r[|r| - 1]))
    ensures |s| - |TrimStartBy(s, p)| + |r| <= |s|
    ensures forall i :: 0 <= i < |r| ==> r[i] == s[|s| - |TrimStartBy(s, p)| + i]
  {
    TrimEndBy(TrimStartBy(s, p), p)
  }

  /** `s.trim()`. */
  function Trim(s: string): (r: string)
    ensures |r| <= |s|
    ensures r == [] || (!IsWhite(r[0]) && !IsWhite(r[|r| - 1]))
  {
    TrimBy(s, IsWhite)
  }

  /** Trimming stops at the first character outside `p`. */
  lemma TrimStartByAt(s: string, p: char -> bool, k: nat)
    requires k <= |s| && (k == |s| || !p(s[k]))
    requires forall i :: 0 <= i < k ==> p(s[i])
    ensures TrimStartBy(s, p) == s[k..]
  {
  }

  lemma TrimEndByAt(s: string, p: char -> bool, k: nat)
    requires k <= |s| && (k == 0 || !p(s[k - 1]))
    requires forall i :: k <= i < |s| ==> p(s[i])
    ensures TrimEndBy(s, p) == s[..k]
  {
  }

  lemma TrimStartByNoop(s: string, p: char -> bool)
    requires s == [] || !p(s[0])
    ensures TrimStartBy(s, p) == s
  {
  }

  lemma TrimEndByNoop(s: string, p: char -> bool)
    requires s == [] || !p(s[|s| - 1])
    ensures TrimEndBy(s, p) == s
  {
  }

  /** A string without leading or trailing `p` characters is its own trim. */
  lemma TrimByNoop(s: string, p: char -> bool)
    requires s == [] || (!p(s[0]) && !p(s[|s| - 1]))
    ensures TrimBy(s, p) == s
  {
    TrimStartByNoop(s, p);
    TrimEndByNoop(s, p);
  }

  lemma TrimByIdempotent(s: string, p: char -> bool)
    ensures TrimBy(TrimBy(s, p), p) == TrimBy(s, p)
  {
    TrimByNoop(TrimBy(s, p), p);
  }

  lemma TrimIdempotent(s: string)
    ensures Trim(Trim(s)) == Trim(s)
  {
    TrimByIdempotent(s, IsWhite);
  }

  /** The leading run is determined by where it stops. */
  lemma LeadingCountIs(s: string, p: char -> bool, n: nat)
    requires n <= |s| && (n == |s| || !p(s[n]))
    requires forall i :: 0 <= i < n ==> p(s[i])
    ensures LeadingCount(s, p) == n
  {
  }

  lemma TrailingStartIs(s: string, p: char -> bool, k: nat)
    requires k <= |s| && (k == 0 || !p(s[k - 1]))
    requires forall i :: k <= i < |s| ==> p(s[i])
    ensures TrailingStart(s, p) == k
  {
  }

  lemma ToLowerPrefix(s: string, k: nat)
    requires k <= |s|
    ensures ToLower(s)[..k] == ToLower(s[..k])
  {
  }

  lemma ToLowerSuffix(s: string, k: nat)
    requires k <= |s|
    ensures ToLower(s)[k..] == ToLower(s[k..])
  {
  }

  lemma TrimStartOfLower(s: string)
    ensures TrimStartBy(ToLower(s), IsWhite) == ToLower(TrimStartBy(s, IsWhite))
  {
    var n := LeadingCount(s, IsWhite);
    LeadingCountIs(ToLower(s), IsWhite, n);
    ToLowerSuffix(s, n);
  }

  lemma TrimEndOfLower(s: string)
    ensures TrimEndBy(ToLower(s), IsWhite) == ToLower(TrimEndBy(s, IsWhite))
  {
    var k := TrailingStart(s, IsWhite);
    TrailingStartIs(ToLower(s), IsWhite, k);
    ToLowerPrefix(s, k);
  }

  /** Lower-casing and trimming commute, since no whitespace character is a letter. */
  lemma TrimOfLower(s: string)
    ensures ToLower(Trim(s)) == Trim(ToLower(s))
  {
    TrimStartOfLower(s);
    TrimEndOfLower(TrimStartBy(s, IsWhite));
  }

  /** Trimming only removes characters: every character of the result comes from `s`. */
  lemma TrimByChars(s: string, p: char -> bool, q: char -> bool)
    requires forall i :: 0 <= i < |s| ==> q(s[i])
    ensures forall i :: 0 <= i < |TrimBy(s, p)| ==> q(TrimBy(s, p)[i])
  {
  }

  // ---------------------------------------------------------------------------
  // Searching

  /** `prefix` is a prefix of `s` (`s.startsWith(prefix)`). */
  predicate StartsWith(s: string, prefix: string) {
    |prefix| <= |s| && s[..|prefix|] == prefix
  }

  predicate EndsWith(s: string, suffix: string) {
    |suffix| <= |s| && s[|s| - |suffix|..] == suffix
  }

  /** `s.includes(sub)`. */
  predicate Contains(s: string, sub: string)
    decreases |s|
  {
    StartsWith(s, sub) || (s != [] && Contains(s[1..], sub))
  }

  lemma ContainsAt(s: string, sub: string, i: nat)
    requires i + |sub| <= |s| && s[i..i + |sub|] == sub
    ensures Contains(s, sub)
    decreases i
  {
    if i > 0 {
      assert s[1..][i - 1..i - 1 + |sub|] == sub;
      ContainsAt(s[1..], sub, i - 1);
    }
  }

  lemma ContainsWitness(s: string, sub: string) returns (i: nat)
    requires Contains(s, sub)
    ensures i + |sub| <= |s| && s[i..i + |sub|] == sub
    decreases |s|
  {
    if StartsWith(s, sub) {
      i := 0;
    } else {
      var j := ContainsWitness(s[1..], sub);
      i := j + 1;
      assert s[i..i + |sub|] == s[1..][j..j + |sub|];
    }
  }

  lemma ContainsTransitive(a: string, b: string, c: string)
    requires Contains(a, b) && Contains(b, c)
    ensures Contains(a, c)
  {
    var i := ContainsWitness(a, b);
    var j := ContainsWitness(b, c);
    assert forall m :: 0 <= m < |b| ==> a[i + m] == b[m];
    assert a[i + j..i + j + |c|] == b[j..j + |c|];
    ContainsAt(a, c, i + j);
  }

  lemma ContainsEmpty(s: string)
    ensures Contains(s, "")
  {
  }

  lemma ContainsSelf(s: string)
    ensures Contains(s, s)
  {
  }

  lemma ContainsLength(s: string, sub: string)
    requires Contains(s, sub)
    ensures |sub| <= |s|
  {
    var i := ContainsWitness(s, sub);
  }

  /** What a string contains, any string extended on either side contains too. */
  lemma ContainsWithin(a: string, s: string, b: string, sub: string)
    requires Contains(s, sub)
    ensures Contains(a + s + b, sub)
  {
    var i := ContainsWitness(s, sub);
    var t := a + s + b;
    assert t[|a| + i..|a| + i + |sub|] == s[i..i + |sub|];
    ContainsAt(t, sub, |a| + i);
  }

  /** A needle holding a character the haystack lacks is not contained in it. */
  lemma NotContainsByChar(s: string, sub: string, c: char)
    requires c in sub && c !in s
    ensures !Contains(s, sub)
  {
    if Contains(s, sub) {
      var i := ContainsWitness(s, sub);
      assert false;
    }
  }

  /** `s.indexOf(c)` for a one-character needle. */
  function IndexOf(s: string, c: char): (r: int)
    ensures -1 <= r < |s|
    ensures r >= 0 ==> s[r] == c
    ensures forall j :: 0 <= j < |s| && (r < 0 || j < r) ==> s[j] != c
  {
    if s == [] then -1
    else if s[0] == c then 0
    else
      var k := IndexOf(s[1..], c);
      if k < 0 then -1 else k + 1
  }

  /** `s.lastIndexOf(c)` for a one-character needle. */
  function LastIndexOf(s: string, c: char): (r: int)
    ensures -1 <= r < |s|
    ensures r >= 0 ==> s[r] == c
    ensures forall j :: 0 <= j < |s| && r < j ==> s[j] != c
  {
    if s == [] then -1
    else if s[|s| - 1] == c then |s| - 1
    else LastIndexOf(s[..|s| - 1], c)
  }

  // ---------------------------------------------------------------------------
  // Filtering and run replacement

  /** Keeps the characters satisfying `keep` (`s.replace(/[^class]/g, '')`). */
  function Filter(s: string, keep: char -> bool): (r: string)
    ensures |r| <= |s|
    ensures forall i :: 0 <= i < |r| ==> keep(r[i])
  {
    if s == [] then [] else (if keep(s[0]) then [s[0]] else []) + Filter(s[1..], keep)
  }

  lemma FilterNoop(s: string, keep: char -> bool)
    requires forall i :: 0 <= i < |s| ==> keep(s[i])
    ensures Filter(s, keep) == s
  {
    if s != [] {
      FilterNoop(s[1..], keep);
    }
  }

  lemma FilterIdempotent(s: string, keep: char -> bool)
    ensures Filter(Filter(s, keep), keep) == Filter(s, keep)
  {
    FilterNoop(Filter(s, keep), keep);
  }

  lemma FilterNone(s: string, keep: char -> bool)
    requires forall i :: 0 <= i < |s| ==> !keep(s[i])
    ensures Filter(s, keep) == []
  {
    if s != [] {
      FilterNone(s[1..], keep);
    }
  }

  /** A string of lower-case letters and digits is left alone by trimming, lower-casing
      and filtering to lower-case letters and digits. */
  lemma LowerAlnumFixed(s: string)
    requires forall i :: 0 <= i < |s| ==> IsLowerAlnum(s[i])
    ensures Trim(s) == s && ToLower(s) == s && Filter(s, IsLowerAlnum) == s
  {
    LowerAlnumUntrimmed(s);
    LowerAlnumUnlowered(s);
    FilterNoop(s, IsLowerAlnum);
  }

  lemma LowerAlnumUntrimmed(s: string)
    requires forall i :: 0 <= i < |s| ==> IsLowerAlnum(s[i])
    ensures Trim(s) == s
  {
    if s != [] {
      assert !IsWhite(s[0]) && !IsWhite(s[|s| - 1]);
    }
    TrimByNoop(s, IsWhite);
  }

  lemma LowerAlnumUnlowered(s: string)
    requires forall i :: 0 <= i < |s| ==> IsLowerAlnum(s[i])
    ensures ToLower(s) == s
  {
    forall i | 0 <= i < |s|
      ensures ToLower(s)[i] == s[i]
    {
      LowerCharFixed(s[i]);
    }
  }

  lemma LowerCharFixed(c: char)
    requires IsLowerAlnum(c)
    ensures LowerChar(c) == c
  {
  }

  /** An unkept character between two strings is filtered out. */
  lemma FilterSkips(x: string, c: char, y: string, keep: char -> bool)
    requires !keep(c)
    ensures Filter(x + [c] + y, keep) == Filter(x + y, keep)
  {
    FilterAppend(x + [c], y, keep);
    FilterAppend(x, [c], keep);
    FilterAppend(x, y, keep);
    assert Filter([c], keep) == [];
  }

  /** Dropping a prefix of unkept characters does not change the filtered string. */
  lemma FilterDropsLeading(s: string, k: nat, keep: char -> bool)
    requires k <= |s| && forall i :: 0 <= i < k ==> !keep(s[i])
    ensures Filter(s[k..], keep) == Filter(s, keep)
  {
    assert s == s[..k] + s[k..];
    FilterNone(s[..k], keep);
    FilterAppend(s[..k], s[k..], keep);
  }

  /** Dropping a suffix of unkept characters does not change the filtered string. */
  lemma FilterDropsTrailing(s: string, k: nat, keep: char -> bool)
    requires k <= |s| && forall i :: k <= i < |s| ==> !keep(s[i])
    ensures Filter(s[..k], keep) == Filter(s, keep)
  {
    assert s == s[..k] + s[k..];
    FilterNone(s[k..], keep);
    FilterAppend(s[..k], s[k..], keep);
  }

  /** Filtering out every whitespace character makes a trim beforehand redundant. */
  lemma FilterOfTrim(s: string)
    ensures Filter(Trim(s), IsLowerAlnum) == Filter(s, IsLowerAlnum)
  {
    var a := LeadingCount(s, IsWhite);
    var t := s[a..];
    FilterDropsLeading(s, a, IsLowerAlnum);
    FilterDropsTrailing(t, TrailingStart(t, IsWhite), IsLowerAlnum);
  }

  lemma FilterAppend(a: string, b: string, keep: char -> bool)
    ensures Filter(a + b, keep) == Filter(a, keep) + Filter(b, keep)
  {
    if a == [] {
      assert a + b == b;
    } else {
      assert (a + b)[0] == a[0];
      assert (a + b)[1..] == a[1..] + b;
      FilterAppend(a[1..], b, keep);
    }
  }

  /** The number of leading characters that do not satisfy `keep`. */
  function UnkeptCount(s: string, keep: char -> bool): (n: nat)
    ensures n <= |s| && (n == |s| || keep(s[n]))
    ensures forall i :: 0 <= i < n ==> !keep(s[i])
  {
    if s != [] && !keep(s[0]) then
      var n := UnkeptCount(s[1..], keep);
      assert forall i :: 1 <= i < n + 1 ==> s[1..][i - 1] == s[i];
      n + 1
    else 0
  }

  /** Drops the leading characters that do not satisfy `keep`. */
  function DropUnkept(s: string, keep: char -> bool): (r: string)
    ensures |r| <= |s| && r == s[|s| - |r|..]
    ensures r == [] || keep(r[0])
  {
    s[UnkeptCount(s, keep)..]
  }

  /** `s.replace(/[^class]+/g, sep)`: every maximal run of characters outside the
      class becomes one `sep`. */
  function ReplaceRuns(s: string, keep: char -> bool, sep: char): (r: string)
    ensures forall i :: 0 <= i < |r| ==> keep(r[i]) || r[i] == sep
    decreases |s|
  {
    if s == [] then []
    else if keep(s[0]) then [s[0]] + ReplaceRuns(s[1..], keep, sep)
    else [sep] + ReplaceRuns(DropUnkept(s[1..], keep), keep, sep)
  }

  /** No two adjacent `sep` characters. */
  predicate NoDoubled(s: string, sep: char) {
    forall i :: 0 <= i < |s| - 1 ==> !(s[i] == sep && s[i + 1] == sep)
  }

  /** The output of ReplaceRuns: only kept characters and single separators. */
  predicate Squashed(s: string, keep: char -> bool, sep: char) {
    (forall i :: 0 <= i < |s| ==> keep(s[i]) || s[i] == sep) && NoDoubled(s, sep)
  }

  lemma ReplaceRunsFirst(s: string, keep: char -> bool, sep: char)
    requires s != []
    ensures ReplaceRuns(s, keep, sep) != []
    ensures ReplaceRuns(s, keep, sep)[0] == if keep(s[0]) then s[0] else sep
  {
  }

  /** After every separator the run replacement emits comes a kept character or the end. */
  lemma ReplaceRunsSquashed(s: string, keep: char -> bool, sep: char)
    requires !keep(sep)
    ensures Squashed(ReplaceRuns(s, keep, sep), keep, sep)
    decreases |s|
  {
    if s == [] {
    } else if keep(s[0]) {
      ReplaceRunsSquashed(s[1..], keep, sep);
    } else {
      var t := DropUnkept(s[1..], keep);
      ReplaceRunsSquashed(t, keep, sep);
      if t != [] {
        ReplaceRunsFirst(t, keep, sep);
      }
    }
  }

  /** A string without kept characters becomes a single separator, or stays empty. */
  lemma ReplaceRunsNoKept(s: string, keep: char -> bool, sep: char)
    requires forall i :: 0 <= i < |s| ==> !keep(s[i])
    ensures ReplaceRuns(s, keep, sep) == if s == [] then [] else [sep]
  {
  }

  /** A run of unkept characters between kept ones becomes one separator. */
  lemma ReplaceRunsGap(a: string, c: char, b: string, keep: char -> bool, sep: char)
    requires forall i :: 0 <= i < |a| ==> keep(a[i])
    requires !keep(c) && (b == [] || keep(b[0]))
    ensures ReplaceRuns(a + [c] + b, keep, sep) == a + [sep] + ReplaceRuns(b, keep, sep)
  {
    var r := ReplaceRuns(b, keep, sep);
    Associate(a, [c], b);
    ReplaceRunsKeptPrefix(a, [c] + b, keep, sep);
    ReplaceRunsGapStart(c, b, keep, sep);
    Associate(a, [sep], r);
  }

  /** Kept characters pass through unchanged. */
  lemma {:induction false} ReplaceRunsKeptPrefix(a: string, t: string, keep: char -> bool, sep: char)
    requires forall i :: 0 <= i < |a| ==> keep(a[i])
    ensures ReplaceRuns(a + t, keep, sep) == a + ReplaceRuns(t, keep, sep)
    decreases |a|
  {
    if a == [] {
      assert a + t == t;
    } else {
      ConsSplit(a, t);
      ReplaceRunsKeptPrefix(a[1..], t, keep, sep);
      ReplaceRunsKeptHead(a + t, keep, sep);
      assert [a[0]] + (a[1..] + ReplaceRuns(t, keep, sep)) == a + ReplaceRuns(t, keep, sep);
    }
  }

  lemma ReplaceRunsGapStart(c: char, b: string, keep: char -> bool, sep: char)
    requires !keep(c) && (b == [] || keep(b[0]))
    ensures ReplaceRuns([c] + b, keep, sep) == [sep] + ReplaceRuns(b, keep, sep)
  {
    assert ([c] + b)[1..] == b;
  }

  lemma ReplaceRunsKeptHead(s: string, keep: char -> bool, sep: char)
    requires s != [] && keep(s[0])
    ensures ReplaceRuns(s, keep, sep) == [s[0]] + ReplaceRuns(s[1..], keep, sep)
  {
  }

  lemma ConsSplit(a: string, b: string)
    requires a != []
    ensures (a + b)[0] == a[0] && (a + b)[1..] == a[1..] + b
  {
  }


  /** A string that is already squashed is left unchanged by the run replacement. */
  lemma ReplaceRunsNoop(s: string, keep: char -> bool, sep: char)
    requires !keep(sep)
    requires Squashed(s, keep, sep)
    ensures ReplaceRuns(s, keep, sep) == s
    decreases |s|
  {
    if s != [] {
      SquashedTail(s, keep, sep);
      ReplaceRunsNoop(s[1..], keep, sep);
      if keep(s[0]) {
        ReplaceRunsKeptHead(s, keep, sep);
      } else {
        SquashedSeparator(s, keep, sep);
      }
      HeadAndTail(s);
    }
  }

  lemma SquashedTail(s: string, keep: char -> bool, sep: char)
    requires s != [] && Squashed(s, keep, sep)
    ensures Squashed(s[1..], keep, sep)
  {
    assert forall i :: 0 <= i < |s| - 1 ==> s[1..][i] == s[i + 1];
  }

  /** In a squashed string a character outside the class is a lone separator, so the
      replacement turns it into itself. */
  lemma SquashedSeparator(s: string, keep: char -> bool, sep: char)
    requires !keep(sep) && s != [] && !keep(s[0]) && Squashed(s, keep, sep)
    ensures s[0] == sep && ReplaceRuns(s, keep, sep) == [sep] + ReplaceRuns(s[1..], keep, sep)
  {
    assert s[1..] == [] || keep(s[1]);
    assert DropUnkept(s[1..], keep) == s[1..];
  }

  lemma HeadAndTail(s: string)
    requires s != []
    ensures s == [s[0]] + s[1..]
  {
  }

  lemma ReplaceRunsIdempotent(s: string, keep: char -> bool, sep: char)
    requires !keep(sep)
    ensures ReplaceRuns(ReplaceRuns(s, keep, sep), keep, sep) == ReplaceRuns(s, keep, sep)
  {
    ReplaceRunsSquashed(s, keep, sep);
    ReplaceRunsNoop(ReplaceRuns(s, keep, sep), keep, sep);
  }

  /** Trimming the separator off both ends keeps a string squashed. */
  lemma TrimBySquashed(s: string, keep: char -> bool, sep: char, p: char -> bool)
    requires Squashed(s, keep, sep)
    ensures Squashed(TrimBy(s, p), keep, sep)
  {
    var r := TrimBy(s, p);
    var k := |s| - |TrimStartBy(s, p)|;
    forall i | 0 <= i < |r| - 1
      ensures !(r[i] == sep && r[i + 1] == sep)
    {
      assert r[i] == s[k + i] && r[i + 1] == s[k + i + 1];
    }
  }

  /** Words of `[a-z0-9]` separated by single `sep` characters, with no `sep` at either
      end: what the `[^a-z0-9]+` replacement followed by trimming produces. */
  predicate Words(s: string, sep: char) {
    Squashed(s, IsLowerAlnum, sep) && (s == [] || (s[0] != sep && s[|s| - 1] != sep))
  }

  /** Trimming the separator off a squashed string leaves words. */
  lemma TrimmedWords(s: string, sep: char, p: char -> bool)
    requires Squashed(s, IsLowerAlnum, sep) && p(sep)
    ensures Words(TrimBy(s, p), sep)
  {
    TrimBySquashed(s, IsLowerAlnum, sep, p);
  }

  /** Trimming, lower-casing and the `[^a-z0-9]+` replacement leave words alone. */
  lemma WordsSteps(n: string, sep: char)
    requires Words(n, sep) && !IsLowerAlnum(sep) && !('A' <= sep <= 'Z')
    ensures Trim(n) == n && ToLower(n) == n && ReplaceRuns(n, IsLowerAlnum, sep) == n
  {
    TrimByNoop(n, IsWhite);
    LowerOfSquashed(n, sep);
    ReplaceRunsNoop(n, IsLowerAlnum, sep);
  }

  lemma LowerOfSquashed(n: string, sep: char)
    requires Squashed(n, IsLowerAlnum, sep) && !('A' <= sep <= 'Z')
    ensures ToLower(n) == n
  {
    assert forall i :: 0 <= i < |n| ==> LowerChar(n[i]) == n[i];
  }

  // ---------------------------------------------------------------------------
  // Split and join

  /** `s.split(sep)` for a one-character separator. */
  function Split(s: string, sep: char): (r: seq<string>)
    ensures |r| >= 1
    ensures forall k, i :: 0 <= k < |r| && 0 <= i < |r[k]| ==> r[k][i] != sep
    decreases |s|
  {
    var i := IndexOf(s, sep);
    if i < 0 then [s]
    else
      var rest := Split(s[i + 1..], sep);
      ConsPartsWithout(s[..i], rest, sep);
      [s[..i]] + rest
  }

  lemma ConsPartsWithout(head: string, rest: seq<string>, sep: char)
    requires forall i :: 0 <= i < |head| ==> head[i] != sep
    requires forall k, i :: 0 <= k < |rest| && 0 <= i < |rest[k]| ==> rest[k][i] != sep
    ensures forall k, i :: 0 <= k < |[head] + rest| && 0 <= i < |([head] + rest)[k]| ==> ([head] + rest)[k][i] != sep
  {
    var parts := [head] + rest;
    forall k, i | 0 <= k < |parts| && 0 <= i < |parts[k]|
      ensures parts[k][i] != sep
    {
      if k > 0 {
        assert parts[k] == rest[k - 1];
      }
    }
  }

  /** `parts.join(sep)`. */
  function Join(parts: seq<string>, sep: string): string {
    if |parts| == 0 then ""
    else if |parts| == 1 then parts[0]
    else parts[0] + sep + Join(parts[1..], sep)
  }

  /** Every part occurs in the joined string. */
  lemma {:induction false} JoinContains(parts: seq<string>, sep: string, i: nat)
    requires i < |parts|
    ensures Contains(Join(parts, sep), parts[i])
    decreases |parts|
  {
    ContainsSelf(parts[i]);
    if |parts| > 1 {
      if i == 0 {
        ContainsWithin("", parts[0], sep + Join(parts[1..], sep), parts[0]);
        assert Join(parts, sep) == "" + parts[0] + (sep + Join(parts[1..], sep));
      } else {
        JoinContains(parts[1..], sep, i - 1);
        ContainsWithin(parts[0] + sep, Join(parts[1..], sep), "", parts[i]);
        assert Join(parts, sep) == parts[0] + sep + Join(parts[1..], sep) + "";
      }
    }
  }

  /** Splitting on a character and joining with it gives back the input. */
  lemma {:induction false} JoinSplit(s: string, sep: char)
    ensures Join(Split(s, sep), [sep]) == s
    decreases |s|
  {
    var i := IndexOf(s, sep);
    if i >= 0 {
      var rest := s[i + 1..];
      JoinSplit(rest, sep);
      JoinCons(s[..i], Split(rest, sep), [sep]);
      SplitAround(s, i);
    }
  }

  lemma JoinCons(head: string, parts: seq<string>, sep: string)
    requires parts != []
    ensures Join([head] + parts, sep) == head + sep + Join(parts, sep)
  {
    assert ([head] + parts)[1..] == parts;
  }

  /** Cutting a string around one of its characters and putting it back. */
  lemma SplitAround(s: string, i: int)
    requires 0 <= i < |s|
    ensures s == s[..i] + [s[i]] + s[i + 1..]
  {
  }

  lemma JoinFour(a: string, b: string, c: string, d: string, sep: string)
    ensures Join([a, b, c, d], sep) == a + sep + b + sep + c + sep + d
  {
    assert [c, d][1..] == [d];
    assert Join([c, d], sep) == c + sep + d;
    assert [b, c, d][1..] == [c, d];
    assert Join([b, c, d], sep) == b + sep + (c + sep + d);
    assert [a, b, c, d][1..] == [b, c, d];
    assert Join([a, b, c, d], sep) == a + sep + (b + sep + (c + sep + d));
  }

  lemma SplitNoSep(a: string, sep: char)
    requires sep !in a
    ensures Split(a, sep) == [a]
  {
    assert IndexOf(a, sep) < 0;
  }

  lemma SplitCons(a: string, sep: char, b: string)
    requires sep !in a
    ensures Split(a + [sep] + b, sep) == [a] + Split(b, sep)
  {
    var s := a + [sep] + b;
    var i := IndexOf(s, sep);
    assert s[|a|] == sep;
    assert i == |a|;
    assert s[..i] == a && s[i + 1..] == b;
  }

  /** Joining parts free of the separator and splitting again gives back the parts. */
  lemma {:induction false} SplitJoin(parts: seq<string>, sep: char)
    requires parts != []
    requires forall k :: 0 <= k < |parts| ==> sep !in parts[k]
    ensures Split(Join(parts, [sep]), sep) == parts
    decreases |parts|
  {
    if |parts| == 1 {
      SplitNoSep(parts[0], sep);
    } else {
      SplitJoin(parts[1..], sep);
      SplitCons(parts[0], sep, Join(parts[1..], [sep]));
      assert parts == [parts[0]] + parts[1..];
    }
  }

  // ---------------------------------------------------------------------------
  // Numbers

  function DigitChar(d: nat): (c: char)
    requires d < 10
    ensures IsDigit(c)
  {
    ('0' as int + d) as char
  }

  function DigitValue(c: char): (d: nat)
    requires IsDigit(c)
    ensures d < 10
  {
    c as int - '0' as int
  }

  /** The decimal digits of `n`, as `String(n)` writes a non-negative integer. */
  function NatToString(n: nat): (r: string)
    ensures |r| >= 1
    ensures forall i :: 0 <= i < |r| ==> IsDigit(r[i])
    ensures r[0] == '0' ==> n == 0
    decreases n
  {
    if n < 10 then [DigitChar(n)] else NatToString(n / 10) + [DigitChar(n % 10)]
  }

  /** `String(n)` for an integer. */
  function IntToString(n: int): (r: string)
    ensures |r| >= 1 && !IsWhite(r[0]) && !IsWhite(r[|r| - 1])
  {
    if n < 0 then "-" + NatToString(-n) else NatToString(n)
  }

  /** The value of a non-empty run of decimal digits. */
  function DigitsValue(s: string): nat
    requires forall i :: 0 <= i < |s| ==> IsDigit(s[i])
  {
    if s == [] then 0 else DigitsValue(s[..|s| - 1]) * 10 + DigitValue(s[|s| - 1])
  }

  lemma {:induction false} DigitsValueOfNatToString(n: nat)
    ensures DigitsValue(NatToString(n)) == n
    decreases n
  {
    if n >= 10 {
      var s := NatToString(n / 10) + [DigitChar(n % 10)];
      assert s[..|s| - 1] == NatToString(n / 10);
      DigitsValueOfNatToString(n / 10);
    }
  }

  predicate AllDigits(s: string) {
    forall i :: 0 <= i < |s| ==> IsDigit(s[i])
  }

  /** `Number(s)` for an optionally signed decimal integer literal, or None when `s`
      is not of that form. */
  function ParseInt(s: string): (r: Option<int>)
    ensures r.Some? <==> (|s| > 0 && ((AllDigits(s)) || ((s[0] == '-' || s[0] == '+') && |s| > 1 && AllDigits(s[1..]))))
  {
    if |s| > 0 && AllDigits(s) then Some(DigitsValue(s))
    else if |s| > 1 && (s[0] == '-' || s[0] == '+') && AllDigits(s[1..]) then
      var v: int := DigitsValue(s[1..]);
      Some(if s[0] == '-' then -v else v)
    else None
  }

  lemma ParseIntOfNatToString(n: nat)
    ensures ParseInt(NatToString(n)) == Some(n)
  {
    assert AllDigits(NatToString(n));
    DigitsValueOfNatToString(n);
  }

  lemma ParseIntOfNegative(n: nat)
    requires n > 0
    ensures ParseInt("-" + NatToString(n)) == Some(-(n as int))
  {
    var d := NatToString(n);
    assert ("-" + d)[1..] == d;
    assert !AllDigits("-" + d) by { assert !IsDigit(("-" + d)[0]); }
    DigitsValueOfNatToString(n);
  }

  lemma ParseIntOfIntToString(n: int)
    ensures ParseInt(IntToString(n)) == Some(n)
  {
    if n < 0 {
      ParseIntOfNegative(-n);
    } else {
      ParseIntOfNatToString(n);
    }
  }

  // ---------------------------------------------------------------------------
  // Ordering

  /** Lexicographic order on characters. It stands for `Array.prototype.sort()` on
      strings and for `localeCompare(...) < 0`. */
  predicate LexLess(a: string, b: string)
    decreases |a|
  {
    if a == [] then b != []
    else if b == [] then false
    else if a[0] != b[0] then a[0] < b[0]
    else LexLess(a[1..], b[1..])
  }

  lemma LexLessIrreflexive(a: string)
    ensures !LexLess(a, a)
  {
  }

  lemma LexLessTransitive(a: string, b: string, c: string)
    requires LexLess(a, b) && LexLess(b, c)
    ensures LexLess(a, c)
    decreases |a|
  {
    if a != [] && b != [] && c != [] && a[0] == b[0] && b[0] == c[0] {
      LexLessTransitive(a[1..], b[1..], c[1..]);
    }
  }

  lemma LexLessTotal(a: string, b: string)
    ensures a == b || LexLess(a, b) || LexLess(b, a)
    decreases |a|
  {
    if a != [] && b != [] && a[0] == b[0] {
      LexLessTotal(a[1..], b[1..]);
      if a[1..] == b[1..] {
        assert a == [a[0]] + a[1..] && b == [b[0]] + b[1..];
      }
    }
  }
}
