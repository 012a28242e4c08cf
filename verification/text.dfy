/**
 * The handful of Python `str` operations the checkers and installers rely on,
 * over `string` (= `seq<char>`). Case folding and whitespace are ASCII only.
 */
module Text {
  import opened Wrappers

  /**
   * The ASCII characters Python's `str.split()`, `str.strip()` and `\s` treat
   * as whitespace: space, `\t` to `\r`, and the separators `\x1c` to `\x1f`.
   * Python also counts `\x85`, `\xa0` and other Unicode spaces; this does not.
   */
  predicate IsSpace(c: char) {
    c == ' ' || ('\t' <= c <= '\r') || ('\U{001C}' <= c <= '\U{001F}')
  }

  predicate IsDigit(c: char) { '0' <= c <= '9' }

  /** Characters of Python's `\w` restricted to ASCII. */
  predicate IsWordChar(c: char) {
    ('a' <= c <= 'z') || ('A' <= c <= 'Z') || IsDigit(c) || c == '_'
  }

  function LowerChar(c: char): char {
    if 'A' <= c <= 'Z' then (c as int + 32) as char else c
  }

  function UpperChar(c: char): char {
    if 'a' <= c <= 'z' then (c as int - 32) as char else c
  }

  /** `s.lower()` */
  function Lower(s: string): (r: string)
    ensures |r| == |s|
  {
    seq(|s|, i requires 0 <= i < |s| => LowerChar(s[i]))
  }

  /** `s.upper()` */
  function Upper(s: string): (r: string)
    ensures |r| == |s|
  {
    seq(|s|, i requires 0 <= i < |s| => UpperChar(s[i]))
  }

  /** `s.startswith(p)` */
  predicate StartsWith(s: string, p: string) {
    |p| <= |s| && s[..|p|] == p
  }

  /** `p in s` */
  predicate Contains(s: string, p: string)
    decreases |s|
  {
    StartsWith(s, p) || (|s| > 0 && Contains(s[1..], p))
  }

  lemma ContainsAt(s: string, p: string, i: nat)
    requires i + |p| <= |s| && s[i..i + |p|] == p
    ensures Contains(s, p)
    decreases i
  {
    if i > 0 {
      assert s[1..][i - 1..i - 1 + |p|] == s[i..i + |p|];
      ContainsAt(s[1..], p, i - 1);
    }
  }

  lemma ContainsPrefix(s: string, t: string, p: string)
    requires Contains(s, p)
    ensures Contains(s + t, p)
    decreases |s|
  {
    if StartsWith(s, p) {
      assert (s + t)[..|p|] == s[..|p|];
    } else {
      assert (s + t)[1..] == s[1..] + t;
      ContainsPrefix(s[1..], t, p);
    }
  }

  lemma ContainsSuffix(s: string, t: string, p: string)
    requires Contains(t, p)
    ensures Contains(s + t, p)
    decreases |s|
  {
    if |s| == 0 {
      assert s + t == t;
    } else {
      assert (s + t)[1..] == s[1..] + t;
      ContainsSuffix(s[1..], t, p);
    }
  }

  /** Text containing a pattern contains every prefix of it. */
  lemma {:induction false} ContainsLonger(s: string, p: string, q: string)
    requires Contains(s, p + q)
    ensures Contains(s, p)
    decreases |s|
  {
    if StartsWith(s, p + q) {
      assert s[..|p|] == (p + q)[..|p|];
    } else {
      ContainsLonger(s[1..], p, q);
    }
  }

  /** A joined string contains whatever one of its parts contains. */
  lemma {:induction false} JoinContains(parts: seq<string>, sep: string, i: nat, p: string)
    requires i < |parts| && Contains(parts[i], p)
    ensures Contains(Join(parts, sep), p)
    decreases |parts|
  {
    if |parts| > 1 {
      var rest := Join(parts[1..], sep);
      assert Join(parts, sep) == parts[0] + (sep + rest);
      if i == 0 {
        ContainsPrefix(parts[0], sep + rest, p);
      } else {
        JoinContains(parts[1..], sep, i - 1, p);
        ContainsSuffix(parts[0] + sep, rest, p);
        assert parts[0] + sep + rest == parts[0] + (sep + rest);
      }
    }
  }

  /** A character that neither the parts nor the separator contain is not in the joined string. */
  lemma {:induction false} JoinLacks(parts: seq<string>, sep: string, c: char)
    requires forall i :: 0 <= i < |parts| ==> c !in parts[i]
    requires c !in sep
    ensures c !in Join(parts, sep)
    decreases |parts|
  {
    if |parts| > 1 {
      JoinLacks(parts[1..], sep, c);
    }
  }

  /** A one-character pattern is contained wherever that character occurs. */
  lemma ContainsChar(s: string, c: char, i: nat)
    requires i < |s| && s[i] == c
    ensures Contains(s, [c])
  {
    assert s[i..i + 1] == [c];
    ContainsAt(s, [c], i);
  }

  /** A pattern whose first character never occurs in `s` is not contained in it. */
  lemma {:induction false} LacksFirstChar(s: string, p: string)
    requires |p| > 0 && forall i :: 0 <= i < |s| ==> s[i] != p[0]
    ensures !Contains(s, p)
    decreases |s|
  {
    if |s| > 0 {
      assert s[0] != p[0];
      LacksFirstChar(s[1..], p);
    }
  }

  /** `s.lstrip()` */
  function TrimStart(s: string): (r: string)
    ensures |r| <= |s|
    ensures |r| > 0 ==> !IsSpace(r[0])
    decreases |s|
  {
    if |s| > 0 && IsSpace(s[0]) then TrimStart(s[1..]) else s
  }

  /**
   * `s.lstrip()` is a suffix of `s`. Kept out of the function's contract:
   * there the self-referential slice sends the solver into a loop.
   */
  lemma {:induction false} TrimStartSuffix(s: string)
    ensures TrimStart(s) == s[|s| - |TrimStart(s)|..]
    decreases |s|
  {
    if |s| > 0 && IsSpace(s[0]) {
      TrimStartSuffix(s[1..]);
    }
  }

  /** `s.rstrip()` */
  function TrimEnd(s: string): (r: string)
    ensures |r| <= |s|
    ensures |r| > 0 ==> !IsSpace(r[|r| - 1])
    decreases |s|
  {
    if |s| > 0 && IsSpace(s[|s| - 1]) then TrimEnd(s[..|s| - 1]) else s
  }

  /** `s.rstrip()` is a prefix of `s`. */
  lemma {:induction false} TrimEndPrefix(s: string)
    ensures TrimEnd(s) == s[..|TrimEnd(s)|]
    decreases |s|
  {
    if |s| > 0 && IsSpace(s[|s| - 1]) {
      TrimEndPrefix(s[..|s| - 1]);
    }
  }

  /** `s.strip()` */
  function Strip(s: string): (r: string)
    ensures |r| <= |s|
    ensures |r| > 0 ==> !IsSpace(r[0]) && !IsSpace(r[|r| - 1])
  {
    var t := TrimStart(s);
    var r := TrimEnd(t);
    TrimEndPrefix(t);
    assert |r| > 0 ==> r[0] == t[0];
    r
  }

  /** `s.strip(c)` for a single character `c`. */
  function StripChar(s: string, c: char): (r: string)
    ensures |r| <= |s|
    ensures |r| > 0 ==> r[0] != c && r[|r| - 1] != c
    decreases |s|
  {
    if |s| > 0 && s[0] == c then StripChar(s[1..], c)
    else if |s| > 0 && s[|s| - 1] == c then StripChar(s[..|s| - 1], c)
    else s
  }

  /** `s.lstrip(c)` for a single character `c`: drops the leading run of `c`. */
  function TrimStartChar(s: string, c: char): (r: string)
    ensures |r| <= |s| && r == s[|s| - |r|..]
    ensures |r| > 0 ==> r[0] != c
    ensures forall i :: 0 <= i < |s| - |r| ==> s[i] == c
    decreases |s|
  {
    if |s| > 0 && s[0] == c then TrimStartChar(s[1..], c) else s
  }

  /** `s.split(c)` for a single-character separator: never empty. */
  function Split(s: string, c: char): (parts: seq<string>)
    ensures |parts| >= 1
    decreases |s|
  {
    if |s| == 0 then [""]
    else
      var rest := Split(s[1..], c);
      if s[0] == c then [""] + rest
      else [[s[0]] + rest[0]] + rest[1..]
  }

  /** No piece of a split contains the separator. */
  lemma {:induction false} SplitPartsNoSep(s: string, c: char)
    ensures forall k :: 0 <= k < |Split(s, c)| ==> c !in Split(s, c)[k]
    decreases |s|
  {
    if |s| > 0 {
      SplitPartsNoSep(s[1..], c);
    }
  }

  /** `sep.join(parts)` */
  function Join(parts: seq<string>, sep: string): string
    decreases |parts|
  {
    if |parts| == 0 then ""
    else if |parts| == 1 then parts[0]
    else parts[0] + sep + Join(parts[1..], sep)
  }

  lemma {:induction false} SplitCons(x: string, rest: string, c: char)
    requires c !in x
    ensures Split(x + [c] + rest, c) == [x] + Split(rest, c)
    decreases |x|
  {
    if |x| == 0 {
      assert x + [c] + rest == [c] + rest;
      assert ([c] + rest)[1..] == rest;
    } else {
      assert (x + [c] + rest)[1..] == x[1..] + [c] + rest;
      assert (x + [c] + rest)[0] == x[0];
      SplitCons(x[1..], rest, c);
      assert [x[0]] + x[1..] == x;
    }
  }

  lemma {:induction false} SplitNoSep(x: string, c: char)
    requires c !in x
    ensures Split(x, c) == [x]
    decreases |x|
  {
    if |x| > 0 {
      SplitNoSep(x[1..], c);
      assert [x[0]] + x[1..] == x;
    }
  }

  /** Splitting a joined list at a separator that no element contains gives the list back. */
  lemma {:induction false} SplitJoin(xs: seq<string>, c: char)
    requires |xs| >= 1
    requires forall k :: 0 <= k < |xs| ==> c !in xs[k]
    ensures Split(Join(xs, [c]), c) == xs
    decreases |xs|
  {
    if |xs| == 1 {
      SplitNoSep(xs[0], c);
    } else {
      SplitJoin(xs[1..], c);
      SplitCons(xs[0], Join(xs[1..], [c]), c);
      assert [xs[0]] + xs[1..] == xs;
    }
  }

  /** Joining the pieces of a split with the separator gives back the text. */
  lemma {:induction false} JoinSplit(s: string, c: char)
    ensures Join(Split(s, c), [c]) == s
    decreases |s|
  {
    if |s| > 0 {
      var rest := Split(s[1..], c);
      JoinSplit(s[1..], c);
      if s[0] == c {
        assert Join([""] + rest, [c]) == "" + [c] + Join(rest, [c]) by {
          assert ([""] + rest)[1..] == rest;
        }
      } else if |rest| == 1 {
        assert Join(rest, [c]) == rest[0];
      } else {
        var head := [s[0]] + rest[0];
        assert ([head] + rest[1..])[1..] == rest[1..];
        assert Join([head] + rest[1..], [c]) == head + [c] + Join(rest[1..], [c]);
        assert Join(rest, [c]) == rest[0] + [c] + Join(rest[1..], [c]);
      }
    }
  }

  /** The longest prefix of `s` with no whitespace. */
  function Word(s: string): (w: string)
    ensures |w| <= |s| && w == s[..|w|]
    decreases |s|
  {
    if |s| == 0 || IsSpace(s[0]) then "" else [s[0]] + Word(s[1..])
  }

  /** `s.split()`: the maximal runs of non-whitespace characters, in order. */
  function Fields(s: string): (fs: seq<string>)
    ensures |fs| == 0 <==> |TrimStart(s)| == 0
    decreases |s|
  {
    var t := TrimStart(s);
    if |t| == 0 then []
    else
      var w := Word(t);
      assert |w| > 0 by { assert !IsSpace(t[0]); }
      [w] + Fields(t[|w|..])
  }

  /** `s.split()[0]`, or None where that indexing raises IndexError. */
  function FirstField(s: string): Option<string> {
    var t := TrimStart(s);
    if |t| == 0 then None else Some(Word(t))
  }

  /** FirstField is the head of `s.split()`. */
  lemma FirstFieldOfFields(s: string)
    ensures FirstField(s).None? <==> |Fields(s)| == 0
    ensures FirstField(s).Some? ==> FirstField(s).value == Fields(s)[0]
  {
  }

  /** `s.count(p)` for a non-empty `p`: non-overlapping occurrences, scanning left to right. */
  function Count(s: string, p: string): (n: nat)
    requires |p| > 0
    ensures n > 0 ==> Contains(s, p)
    decreases |s|
  {
    if |s| < |p| then 0
    else if StartsWith(s, p) then 1 + Count(s[|p|..], p)
    else Count(s[1..], p)
  }

  /** `s[:n]` */
  function Take(s: string, n: nat): (r: string)
    ensures |r| <= n && |r| <= |s|
    ensures r == s[..|r|]
  {
    if |s| <= n then s else s[..n]
  }

  /** `s.rsplit(c, 1)[-1]`: the text after the last `c`, or all of `s` without one. */
  function AfterLast(s: string, c: char): (r: string)
    ensures |r| <= |s| && r == s[|s| - |r|..]
    ensures c !in r
    decreases |s|
  {
    if |s| == 0 then ""
    else if s[|s| - 1] == c then ""
    else AfterLast(s[..|s| - 1], c) + [s[|s| - 1]]
  }

  /** The decimal digits of `n`, as `str(n)` prints them. */
  function NatStr(n: nat): (r: string)
    ensures |r| >= 1
  {
    var d := ['0' + (n % 10) as char];
    if n < 10 then d else NatStr(n / 10) + d
  }

  /** Value of a run of ASCII digits, as `int()` reads it. */
  function DigitsValue(s: string): nat
    requires forall k :: 0 <= k < |s| ==> IsDigit(s[k])
    decreases |s|
  {
    if |s| == 0 then 0
    else
      assert IsDigit(s[|s| - 1]);
      DigitsValue(s[..|s| - 1]) * 10 + (s[|s| - 1] as int - '0' as int)
  }

  /** The longest prefix of digits. */
  function Digits(s: string): (d: string)
    ensures |d| <= |s| && d == s[..|d|]
    ensures forall k :: 0 <= k < |d| ==> IsDigit(d[k])
    ensures |d| < |s| ==> !IsDigit(s[|d|])
  {
    Run(s, IsDigit)
  }

  /** The longest prefix of ASCII word characters. */
  function WordChars(s: string): (d: string)
    ensures |d| <= |s| && d == s[..|d|]
    ensures forall k :: 0 <= k < |d| ==> IsWordChar(d[k])
    ensures |d| < |s| ==> !IsWordChar(s[|d|])
  {
    Run(s, IsWordChar)
  }

  /** The non-empty lines of `s.strip().split('\n')`, the idiom several probes use to count output lines. */
  function NonEmptyLines(s: string): seq<string> {
    Filter(Split(Strip(s), '\n'))
  }

  /** `[x for x in xs if x]` */
  function Filter(xs: seq<string>): (r: seq<string>)
    ensures |r| <= |xs|
    decreases |xs|
  {
    if |xs| == 0 then []
    else if |xs[0]| == 0 then Filter(xs[1..])
    else [xs[0]] + Filter(xs[1..])
  }

  /** Position `i` of `s` begins a line: the start of the text or just after a newline (`^` under `re.MULTILINE`). */
  predicate LineStart(s: string, i: nat) {
    i == 0 || (0 < i <= |s| && s[i - 1] == '\n')
  }

  /**
   * `re.search` of a `^`-anchored multi-line pattern: the first line start at or after `i`
   * from which `matches` accepts the rest of the text.
   */
  function FirstLineMatch(s: string, matches: string -> bool, i: nat): (r: Option<nat>)
    requires i <= |s|
    ensures r.Some? ==> i <= r.value <= |s| && LineStart(s, r.value) && matches(s[r.value..])
    ensures r.Some? ==> forall k :: i <= k < r.value && LineStart(s, k) ==> !matches(s[k..])
    ensures r.None? ==> forall k :: i <= k <= |s| && LineStart(s, k) ==> !matches(s[k..])
    decreases |s| - i
  {
    if LineStart(s, i) && matches(s[i..]) then Some(i)
    else if i == |s| then None
    else FirstLineMatch(s, matches, i + 1)
  }

  /** Iterating over a text file: each line keeps its newline; a last line without one is kept as is. */
  function FileLines(s: string): (ls: seq<string>)
    ensures |s| == 0 <==> |ls| == 0
    decreases |s|
  {
    if |s| == 0 then []
    else
      var rest := FileLines(s[1..]);
      if s[0] == '\n' || |rest| == 0 then [[s[0]]] + rest
      else [[s[0]] + rest[0]] + rest[1..]
  }

  /** `"".join(parts)` */
  function Concat(parts: seq<string>): string
    decreases |parts|
  {
    if |parts| == 0 then "" else parts[0] + Concat(parts[1..])
  }

  /** Reading the lines back to back gives the file. */
  lemma {:induction false} FileLinesConcat(s: string)
    ensures Concat(FileLines(s)) == s
    decreases |s|
  {
    if |s| > 0 {
      FileLinesConcat(s[1..]);
      var rest := FileLines(s[1..]);
      if s[0] != '\n' && |rest| > 0 {
        assert Concat(rest) == rest[0] + Concat(rest[1..]);
      }
      assert [s[0]] + s[1..] == s;
    }
  }

  /** Every line is non-empty and holds a newline only as its last character. */
  lemma {:induction false} FileLinesShape(s: string)
    ensures forall k :: 0 <= k < |FileLines(s)| ==> |FileLines(s)[k]| > 0
    ensures forall k, j :: 0 <= k < |FileLines(s)| && 0 <= j < |FileLines(s)[k]| - 1 ==> FileLines(s)[k][j] != '\n'
    decreases |s|
  {
    if |s| > 0 {
      FileLinesShape(s[1..]);
    }
  }

  /**
   * `re.findall` for a pattern without empty matches: `m(t)` is the captured
   * group and the length of the match at the start of `t`, if any. Scanning
   * goes left to right and resumes after each match.
   */
  function FindAll(s: string, m: string -> Option<(string, nat)>): (groups: seq<string>)
    decreases |s|
  {
    if |s| == 0 then []
    else
      var r := m(s);
      if r.Some? && 0 < r.value.1 <= |s| then [r.value.0] + FindAll(s[r.value.1..], m)
      else FindAll(s[1..], m)
  }

  /** A literal `prefix` followed by a non-empty greedy run of the class, at the start of `t`. */
  function PrefixRun(t: string, prefix: string, inClass: char -> bool): (r: Option<(string, nat)>)
    ensures r.Some? ==> StartsWith(t, prefix) && |r.value.0| > 0 && r.value.1 == |prefix| + |r.value.0|
  {
    if !StartsWith(t, prefix) then None
    else
      var run := Run(t[|prefix|..], inClass);
      if |run| > 0 then Some((run, |prefix| + |run|)) else None
  }

  /** `re.findall(prefix + r'(X+)', s)` for a literal `prefix` and a character class `X`. */
  function FindAllRuns(s: string, prefix: string, inClass: char -> bool): seq<string> {
    FindAll(s, t => PrefixRun(t, prefix, inClass))
  }

  /** The length of the longest prefix of `s` whose characters are all in the class. */
  function RunLength(s: string, inClass: char -> bool): (n: nat)
    ensures n <= |s|
    decreases |s|
  {
    if |s| == 0 || !inClass(s[0]) then 0 else 1 + RunLength(s[1..], inClass)
  }

  /** The run is all in the class and stops at the first character outside it. */
  lemma {:induction false} RunLengthSpec(s: string, inClass: char -> bool)
    ensures forall k :: 0 <= k < RunLength(s, inClass) ==> inClass(s[k])
    ensures RunLength(s, inClass) < |s| ==> !inClass(s[RunLength(s, inClass)])
    decreases |s|
  {
    if |s| > 0 && inClass(s[0]) {
      RunLengthSpec(s[1..], inClass);
    }
  }

  /** The longest prefix of `s` whose characters are all in the class. */
  function Run(s: string, inClass: char -> bool): (r: string)
    ensures |r| <= |s| && r == s[..|r|]
    ensures forall k :: 0 <= k < |r| ==> inClass(r[k])
    ensures |r| < |s| ==> !inClass(s[|r|])
  {
    RunLengthSpec(s, inClass);
    s[..RunLength(s, inClass)]
  }

  /** Text without the prefix never yields a match. */
  lemma {:induction false} FindAllRunsNeedsPrefix(s: string, prefix: string, inClass: char -> bool)
    requires !Contains(s, prefix)
    ensures FindAllRuns(s, prefix, inClass) == []
    decreases |s|
  {
    if |s| > 0 {
      assert PrefixRun(s, prefix, inClass).None?;
      FindAllRunsNeedsPrefix(s[1..], prefix, inClass);
    }
  }

  /** `s.replace(pat, rep)`: every occurrence of `pat`, left to right and without overlaps. */
  function Replace(s: string, pat: string, rep: string): (r: string)
    requires |pat| > 0
    decreases |s|
  {
    if |s| < |pat| then s
    else if StartsWith(s, pat) then rep + Replace(s[|pat|..], pat, rep)
    else [s[0]] + Replace(s[1..], pat, rep)
  }

  /** Replacing something that does not occur changes nothing. */
  lemma {:induction false} ReplaceAbsent(s: string, pat: string, rep: string)
    requires |pat| > 0 && !Contains(s, pat)
    ensures Replace(s, pat, rep) == s
    decreases |s|
  {
    if |s| >= |pat| {
      ReplaceAbsent(s[1..], pat, rep);
    }
  }

  /** `re.search` for the same kind of pattern: the group of the leftmost match. */
  function Search(s: string, m: string -> Option<(string, nat)>): Option<string> {
    var gs := FindAll(s, m);
    if |gs| > 0 then Some(gs[0]) else None
  }

  /** A split has one more piece than there are separators. */
  lemma {:induction false} SplitLength(s: string, c: char)
    ensures |Split(s, c)| == multiset(s)[c] + 1
    decreases |s|
  {
    if |s| > 0 {
      SplitLength(s[1..], c);
      assert s == [s[0]] + s[1..];
    }
  }
}
