/**
 * The DNF configuration optimizer (fedchecker/postinstall/dnf_optimizer.py):
 * reading the `key=value` settings of `/etc/dnf/dnf.conf`, the line-by-line
 * rewrite that sets the recommended values, and the insertion of the
 * settings no line mentions right after the `[main]` section header.
 */
module DnfOptimizer {
  import opened Wrappers
  import opened Text
  import Exec

  /** A table of optimizations, in table order: each setting and its recommended value. */
  type Table = seq<(string, string)>

  /** `OPTIMIZATIONS` */
  const Optimizations: Table := [
    ("fastestmirror", "True"),
    ("max_parallel_downloads", "10"),
    ("deltarpm", "True"),
    ("defaultyes", "True"),
    ("keepcache", "False"),
    ("install_weak_deps", "False")]

  function Key(table: Table, j: nat): string
    requires j < |table|
  {
    table[j].0
  }

  function Value(table: Table, j: nat): string
    requires j < |table|
  {
    table[j].1
  }

  /** `f"{key}={value}"` */
  function Assign(k: string, v: string): string {
    k + "=" + v
  }

  /** A string `strip()` leaves alone, holding neither `=` nor a newline. */
  predicate Plain(s: string) {
    |s| > 0 && !IsSpace(s[0]) && !IsSpace(s[|s| - 1]) && '=' !in s && '\n' !in s
  }

  /** A plain key and value, the key starting like neither a comment nor a section header. */
  predicate GoodEntry(e: (string, string)) {
    Plain(e.0) && Plain(e.1) && e.0[0] != '#' && e.0[0] != '['
  }

  /**
   * The shape of the table the rewrite relies on: good entries with
   * distinct keys. The members below take the table as a parameter and
   * assume no more of it than this.
   */
  predicate Good(table: Table) {
    && (forall j :: 0 <= j < |table| ==> GoodEntry(table[j]))
    && (forall i, j :: 0 <= i < |table| && 0 <= j < |table| && i != j ==> table[i].0 != table[j].0)
  }

  lemma OptimizationsKeysLow(j: nat)
    requires j < 3
    ensures GoodEntry(Optimizations[j])
  {
    if j == 0 {} else if j == 1 {} else {}
  }

  lemma OptimizationsKeysHigh(j: nat)
    requires 3 <= j < |Optimizations|
    ensures GoodEntry(Optimizations[j])
  {
    if j == 3 {} else if j == 4 {} else {}
  }

  /** The keys of `OPTIMIZATIONS` have pairwise different lengths. */
  lemma OptimizationsKeyLength(j: nat)
    requires j < |Optimizations|
    ensures |Optimizations[j].0| == [13, 22, 8, 10, 9, 17][j]
  {
    if j == 0 {} else if j == 1 {} else if j == 2 {} else if j == 3 {} else if j == 4 {} else {}
  }

  /** `OPTIMIZATIONS` has the shape the rewrite relies on. */
  lemma OptimizationsGood()
    ensures Good(Optimizations)
  {
    forall j | 0 <= j < |Optimizations| ensures GoodEntry(Optimizations[j]) {
      if j < 3 { OptimizationsKeysLow(j); } else { OptimizationsKeysHigh(j); }
    }
    forall i, j | 0 <= i < |Optimizations| && 0 <= j < |Optimizations| && i != j
      ensures Optimizations[i].0 != Optimizations[j].0
    {
      OptimizationsKeyLength(i);
      OptimizationsKeyLength(j);
    }
  }

  lemma StripPlain(s: string)
    requires |s| > 0 && !IsSpace(s[0]) && !IsSpace(s[|s| - 1])
    ensures Strip(s) == s
  {
  }

  // ---------------------------------------------------------------------
  // get_current_config

  /** The position of the first `c` in `s`. */
  function IndexOf(s: string, c: char): (i: nat)
    requires c in s
    ensures i < |s| && s[i] == c && c !in s[..i]
    decreases |s|
  {
    if s[0] == c then 0
    else
      assert s == [s[0]] + s[1..];
      var i := IndexOf(s[1..], c);
      assert s[..i + 1] == [s[0]] + s[1..][..i];
      i + 1
  }

  /** The first `c` of `x + [c] + y`, when `x` holds none, is the one after `x`. */
  lemma {:induction false} IndexOfAfter(x: string, c: char, y: string)
    requires c !in x
    ensures IndexOf(x + [c] + y, c) == |x|
    decreases |x|
  {
    if |x| > 0 {
      assert (x + [c] + y)[1..] == x[1..] + [c] + y;
      IndexOfAfter(x[1..], c, y);
    }
  }

  /** A stripped line that sets something: it holds `=` and is neither a comment nor a section header. */
  predicate IsSetting(s: string) {
    '=' in s && !StartsWith(s, "#") && !StartsWith(s, "[")
  }

  /** What a line sets: `key, value = line.split('=', 1)`, both stripped, for a setting line. */
  function Entry(line: string): Option<(string, string)> {
    var s := Strip(line);
    if IsSetting(s) then
      var i := IndexOf(s, '=');
      Some((Strip(s[..i]), Strip(s[i + 1..])))
    else None
  }

  /** The entry sets key `k`. */
  predicate Sets(e: Option<(string, string)>, k: string) {
    e.Some? && e.value.0 == k
  }

  /**
   * The `config[key.strip()] = value.strip()` loop over the lines, in order,
   * for any way `entry` of reading a line.
   */
  function ParseWith(lines: seq<string>, entry: string -> Option<(string, string)>): map<string, string>
    decreases |lines|
  {
    if |lines| == 0 then map[]
    else
      var m := ParseWith(lines[..|lines| - 1], entry);
      var e := entry(lines[|lines| - 1]);
      if e.Some? then m[e.value.0 := e.value.1] else m
  }

  /** `get_current_config` over the lines of the file. */
  function ParseLines(lines: seq<string>): map<string, string> {
    ParseWith(lines, Entry)
  }

  function Lookup(m: map<string, string>, k: string): Option<string> {
    if k in m then Some(m[k]) else None
  }

  /** No line sets `k`. */
  predicate Silent(lines: seq<string>, entry: string -> Option<(string, string)>, k: string) {
    forall i :: 0 <= i < |lines| ==> !Sets(entry(lines[i]), k)
  }

  /** A key is read exactly when some line sets it. */
  lemma {:induction false} ParseSilent(lines: seq<string>, entry: string -> Option<(string, string)>, k: string)
    ensures Lookup(ParseWith(lines, entry), k).None? <==> Silent(lines, entry, k)
    decreases |lines|
  {
    if |lines| > 0 {
      var p := lines[..|lines| - 1];
      ParseSilent(p, entry, k);
      assert forall i :: 0 <= i < |p| ==> p[i] == lines[i];
    }
  }

  /** A later duplicate wins: the value read for a key is the one its last setting line gives. */
  lemma {:induction false} ParseLast(lines: seq<string>, entry: string -> Option<(string, string)>, k: string)
    ensures Lookup(ParseWith(lines, entry), k).Some? ==>
              exists i :: 0 <= i < |lines| && Sets(entry(lines[i]), k)
                && ParseWith(lines, entry)[k] == entry(lines[i]).value.1
                && Silent(lines[i + 1..], entry, k)
    decreases |lines|
  {
    if |lines| > 0 {
      var p := lines[..|lines| - 1];
      var last := lines[|lines| - 1];
      if Sets(entry(last), k) {
        assert Silent(lines[|lines|..], entry, k);
      } else if Lookup(ParseWith(lines, entry), k).Some? {
        ParseLast(p, entry, k);
        var i :| 0 <= i < |p| && Sets(entry(p[i]), k) && ParseWith(p, entry)[k] == entry(p[i]).value.1
          && Silent(p[i + 1..], entry, k);
        assert lines[i + 1..] == p[i + 1..] + [last];
        assert lines[i] == p[i];
      }
    }
  }

  /** Reading `xs + ys`, a key takes its value from `ys` when `ys` sets it, and from `xs` otherwise. */
  lemma {:induction false} ParseAppend(xs: seq<string>, ys: seq<string>, entry: string -> Option<(string, string)>, k: string)
    ensures Lookup(ParseWith(xs + ys, entry), k)
            == if Silent(ys, entry, k) then Lookup(ParseWith(xs, entry), k) else Lookup(ParseWith(ys, entry), k)
    decreases |ys|
  {
    if |ys| == 0 {
      assert xs + ys == xs;
    } else {
      var q := ys[..|ys| - 1];
      assert (xs + ys)[..|xs + ys| - 1] == xs + q;
      assert (xs + ys)[|xs + ys| - 1] == ys[|ys| - 1];
      ParseAppend(xs, q, entry, k);
      assert forall i :: 0 <= i < |q| ==> q[i] == ys[i];
    }
  }

  /** Two texts that set a key on the same lines to the same values read the same value for it. */
  lemma {:induction false} ParseSame(xs: seq<string>, ys: seq<string>, entry: string -> Option<(string, string)>, k: string)
    requires |xs| == |ys|
    requires forall i :: 0 <= i < |xs| ==> (Sets(entry(xs[i]), k) <==> Sets(entry(ys[i]), k))
    requires forall i :: 0 <= i < |xs| && Sets(entry(xs[i]), k) ==> entry(xs[i]) == entry(ys[i])
    ensures Lookup(ParseWith(xs, entry), k) == Lookup(ParseWith(ys, entry), k)
    decreases |xs|
  {
    if |xs| > 0 {
      ParseSame(xs[..|xs| - 1], ys[..|ys| - 1], entry, k);
    }
  }

  /** When every line setting a key gives it the same value, and some line does, that value is read. */
  lemma ParseAll(xs: seq<string>, entry: string -> Option<(string, string)>, k: string, v: string)
    requires !Silent(xs, entry, k)
    requires forall i :: 0 <= i < |xs| && Sets(entry(xs[i]), k) ==> entry(xs[i]).value.1 == v
    ensures Lookup(ParseWith(xs, entry), k) == Some(v)
  {
    ParseSilent(xs, entry, k);
    ParseLast(xs, entry, k);
  }

  /** Where the configuration comes from: absent, unreadable (with the error), or its text. */
  datatype ConfFile = Missing | Unreadable(error: string) | Present(content: string)

  /** `get_current_config`: no settings unless the file can be read; otherwise a key is read exactly when some line sets it. */
  function CurrentConfig(f: ConfFile): (m: map<string, string>)
    ensures !f.Present? ==> m == map[]
    ensures f.Present? ==> forall k :: k in m <==> !Silent(Split(f.content, '\n'), Entry, k)
  {
    match f
    case Present(content) =>
      var m := ParseLines(Split(content, '\n'));
      forall k ensures k in m <==> !Silent(Split(content, '\n'), Entry, k) {
        ParseSilent(Split(content, '\n'), Entry, k);
      }
      m
    case _ => map[]
  }

  // ---------------------------------------------------------------------
  // apply_optimizations: the rewrite pass

  /** The stripped line begins with `k=` or `#k=` for the `j`-th optimization. */
  predicate Matches(table: Table, s: string, j: nat)
    requires j < |table|
  {
    StartsWith(s, Key(table, j) + "=") || StartsWith(s, "#" + Key(table, j) + "=")
  }

  function MatchFrom(table: Table, s: string, j: nat): (r: Option<nat>)
    requires j <= |table|
    ensures r.Some? ==> j <= r.value < |table| && Matches(table, s, r.value)
    ensures r.Some? ==> forall i :: j <= i < r.value ==> !Matches(table, s, i)
    ensures r.None? ==> forall i :: j <= i < |table| ==> !Matches(table, s, i)
    decreases |table| - j
  {
    if j == |table| then None
    else if Matches(table, s, j) then Some(j)
    else MatchFrom(table, s, j + 1)
  }

  /** The optimization the inner loop stops at for this line: the first in table order that it matches. */
  function MatchOf(table: Table, line: string): Option<nat> {
    MatchFrom(table, Strip(line), 0)
  }

  /** `current.get(key, default)` */
  function Get(m: map<string, string>, k: string, default: string): string {
    if k in m then m[k] else default
  }

  /** The setting already has its recommended value, compared case-insensitively. */
  predicate Settled(table: Table, current: map<string, string>, j: nat)
    requires j < |table|
  {
    Lower(Get(current, Key(table, j), "")) == Lower(Value(table, j))
  }

  /** A row of the "Current DNF Configuration" table: setting, current value, recommended value, and whether it is done. */
  datatype StatusRow = StatusRow(key: string, current: string, recommended: string, done: bool)

  /**
   * `show_current_status`: one row per optimization, in table order. A setting
   * is shown as done when its current value, "Not set" if it has none, equals
   * the recommended value ignoring case.
   */
  function CurrentStatus(table: Table, current: map<string, string>): (rows: seq<StatusRow>)
    ensures |rows| == |table|
    ensures forall j :: 0 <= j < |table| ==>
              rows[j].key == Key(table, j) && rows[j].recommended == Value(table, j)
              && rows[j].current == (if Key(table, j) in current then current[Key(table, j)] else "Not set")
    ensures forall j :: 0 <= j < |table| && Good(table) && Lower(Value(table, j)) != "not set" ==>
              (rows[j].done <==> Settled(table, current, j))
  {
    assert Lower("Not set") == "not set";
    seq(|table|, j requires 0 <= j < |table| =>
      var v := Get(current, Key(table, j), "Not set");
      StatusRow(Key(table, j), v, Value(table, j), Lower(v) == Lower(Value(table, j))))
  }

  /** For `OPTIMIZATIONS` the status table marks a setting done exactly when the rewrite would leave it alone. */
  lemma StatusAgreesWithRewrite(current: map<string, string>, j: nat)
    requires j < |Optimizations|
    ensures CurrentStatus(Optimizations, current)[j].done <==> Settled(Optimizations, current, j)
  {
    OptimizationsGood();
    assert |Lower(Value(Optimizations, j))| < 7;
  }

  /** What the rewrite makes of one line: the line written, the change recorded, the key marked applied. */
  datatype Edit = Edit(line: string, change: Option<string>, applied: Option<nat>)

  /** One pass of the `for line in lines` loop. */
  function EditLine(table: Table, line: string, current: map<string, string>): (e: Edit)
    ensures e.applied == MatchOf(table, line)
    ensures MatchOf(table, line).None? ==> e.line == line && e.change.None?
    ensures MatchOf(table, line).Some? ==>
              var j := MatchOf(table, line).value;
              (e.change.Some? <==> !Settled(table, current, j))
              && (e.change.Some? ==> e.line == Assign(Key(table, j), Value(table, j)))
              && (e.change.None? ==> e.line == line)
  {
    match MatchOf(table, line)
    case None => Edit(line, None, None)
    case Some(j) =>
      if !Settled(table, current, j) then
        Edit(Assign(Key(table, j), Value(table, j)), Some(Key(table, j) + ": " + Get(current, Key(table, j), "Not set") + " -> " + Value(table, j)), Some(j))
      else Edit(line, None, Some(j))
  }

  function Edits(table: Table, lines: seq<string>, current: map<string, string>): (es: seq<Edit>)
    ensures |es| == |lines|
    ensures forall i :: 0 <= i < |lines| ==> es[i] == EditLine(table, lines[i], current)
  {
    seq(|lines|, i requires 0 <= i < |lines| => EditLine(table, lines[i], current))
  }

  /** `new_lines` after the rewrite loop. */
  function Written(es: seq<Edit>): (ls: seq<string>)
    ensures |ls| == |es|
    ensures forall i :: 0 <= i < |es| ==> ls[i] == es[i].line
  {
    seq(|es|, i requires 0 <= i < |es| => es[i].line)
  }

  /** `applied_keys`, as table positions. */
  predicate AppliedIn(es: seq<Edit>, j: nat) {
    exists i :: 0 <= i < |es| && es[i].applied == Some(j)
  }

  /** The optimizations from position `j` on that no line applied, in table order. */
  function MissingFrom(table: Table, es: seq<Edit>, j: nat): (ms: seq<nat>)
    requires j <= |table|
    ensures forall t :: 0 <= t < |ms| ==> j <= ms[t] < |table|
    decreases |table| - j
  {
    if j == |table| then []
    else if AppliedIn(es, j) then MissingFrom(table, es, j + 1)
    else [j] + MissingFrom(table, es, j + 1)
  }

  /** The optimizations listed are exactly those from `j` on that no line applied, in increasing order. */
  lemma MissingFromSpec(table: Table, es: seq<Edit>, j: nat)
    requires j <= |table|
    ensures forall i :: i in MissingFrom(table, es, j) ==> !AppliedIn(es, i)
    ensures forall i :: j <= i < |table| && !AppliedIn(es, i) ==> i in MissingFrom(table, es, j)
    ensures forall s, t :: 0 <= s < t < |MissingFrom(table, es, j)| ==> MissingFrom(table, es, j)[s] < MissingFrom(table, es, j)[t]
  {
    MissingFromSound(table, es, j);
    MissingFromComplete(table, es, j);
    MissingFromSorted(table, es, j);
  }

  lemma {:induction false} MissingFromSound(table: Table, es: seq<Edit>, j: nat)
    requires j <= |table|
    ensures forall i :: i in MissingFrom(table, es, j) ==> !AppliedIn(es, i)
    decreases |table| - j
  {
    if j < |table| {
      MissingFromSound(table, es, j + 1);
    }
  }

  lemma {:induction false} MissingFromComplete(table: Table, es: seq<Edit>, j: nat)
    requires j <= |table|
    ensures forall i :: j <= i < |table| && !AppliedIn(es, i) ==> i in MissingFrom(table, es, j)
    decreases |table| - j
  {
    if j < |table| {
      MissingFromComplete(table, es, j + 1);
    }
  }

  lemma {:induction false} MissingFromSorted(table: Table, es: seq<Edit>, j: nat)
    requires j <= |table|
    ensures forall s, t :: 0 <= s < t < |MissingFrom(table, es, j)| ==> MissingFrom(table, es, j)[s] < MissingFrom(table, es, j)[t]
    decreases |table| - j
  {
    if j < |table| {
      MissingFromSorted(table, es, j + 1);
      var rest := MissingFrom(table, es, j + 1);
      if !AppliedIn(es, j) {
        var ms := [j] + rest;
        assert MissingFrom(table, es, j) == ms;
        forall s, t | 0 <= s < t < |ms| ensures ms[s] < ms[t] {
          assert ms[t] == rest[t - 1] > j;
          if s > 0 {
            assert ms[s] == rest[s - 1];
          }
        }
      } else {
        assert MissingFrom(table, es, j) == rest;
      }
    }
  }

  /** The lines inserted for the missing optimizations. */
  function Inserted(table: Table, ms: seq<nat>): (ls: seq<string>)
    requires forall t :: 0 <= t < |ms| ==> ms[t] < |table|
    ensures |ls| == |ms|
    ensures forall t :: 0 <= t < |ms| ==> ls[t] == Assign(Key(table, ms[t]), Value(table, ms[t]))
  {
    seq(|ms|, t requires 0 <= t < |ms| => Assign(Key(table, ms[t]), Value(table, ms[t])))
  }

  /** The changes recorded for the inserted lines. */
  function NotSet(table: Table, ms: seq<nat>): (cs: seq<string>)
    requires forall t :: 0 <= t < |ms| ==> ms[t] < |table|
    ensures |cs| == |ms|
  {
    seq(|ms|, t requires 0 <= t < |ms| => Key(table, ms[t]) + ": Not set -> " + Value(table, ms[t]))
  }

  function Recorded(es: seq<Edit>): (cs: seq<Option<string>>)
    ensures |cs| == |es|
    ensures forall i :: 0 <= i < |es| ==> cs[i] == es[i].change
  {
    seq(|es|, i requires 0 <= i < |es| => es[i].change)
  }

  predicate IsMain(line: string) {
    Strip(line) == "[main]"
  }

  function FirstMain(lines: seq<string>): Option<nat> {
    FirstIndex(lines, IsMain, 0)
  }

  /** The new lines of the configuration and the changes, in the order they were recorded. */
  datatype Plan = Plan(lines: seq<string>, changes: seq<string>)

  /** The insertion after the first `[main]` of the rewritten lines, given what the rewrite loop did. */
  function Assemble(table: Table, es: seq<Edit>): Plan {
    var r := Written(es);
    var changes := Somes(Recorded(es));
    match FirstMain(r)
    case None => Plan(r, changes)
    case Some(m) =>
      var ms := MissingFrom(table, es, 0);
      Plan(r[..m + 1] + Inserted(table, ms) + r[m + 1..], changes + NotSet(table, ms))
  }

  /** The rewrite loop followed by the insertion. */
  function Rewrite(table: Table, lines: seq<string>, current: map<string, string>): Plan {
    Assemble(table, Edits(table, lines, current))
  }

  // ---------------------------------------------------------------------
  // What the rewrite does with the table's own lines

  /** Two keys without `=` that both begin `s` followed by `=` are the same key. */
  lemma PrefixUnique(s: string, k1: string, k2: string)
    requires '=' !in k1 && '=' !in k2
    requires StartsWith(s, k1 + "=") && StartsWith(s, k2 + "=")
    ensures k1 == k2
  {
    assert forall i :: 0 <= i < |k1| ==> s[i] == k1[i] by {
      forall i | 0 <= i < |k1| ensures s[i] == k1[i] {
        assert s[..|k1 + "="|][i] == (k1 + "=")[i];
      }
    }
    assert forall i :: 0 <= i < |k2| ==> s[i] == k2[i] by {
      forall i | 0 <= i < |k2| ensures s[i] == k2[i] {
        assert s[..|k2 + "="|][i] == (k2 + "=")[i];
      }
    }
    assert s[|k1|] == '=' by {
      assert s[..|k1 + "="|][|k1|] == (k1 + "=")[|k1|];
    }
    assert s[|k2|] == '=' by {
      assert s[..|k2 + "="|][|k2|] == (k2 + "=")[|k2|];
    }
  }

  /** A stripped line beginning `k=` for a key of the table matches that optimization first. */
  lemma FirstMatch(table: Table, s: string, j: nat)
    requires Good(table)
    requires j < |table| && StartsWith(s, Key(table, j) + "=")
    ensures MatchFrom(table, s, 0) == Some(j)
  {
    assert GoodEntry(table[j]);
    assert s[0] == Key(table, j)[0] by {
      assert s[..|Key(table, j) + "="|][0] == (Key(table, j) + "=")[0];
    }
    forall i | 0 <= i < |table| && i != j ensures !Matches(table, s, i) {
      assert GoodEntry(table[i]);
      if StartsWith(s, Key(table, i) + "=") {
        PrefixUnique(s, Key(table, i), Key(table, j));
      }
    }
    assert Matches(table, s, j);
    var r := MatchFrom(table, s, 0);
    assert r.Some? && Matches(table, s, r.value);
  }

  lemma StripAssign(table: Table, j: nat)
    requires Good(table)
    requires j < |table|
    ensures Strip(Assign(Key(table, j), Value(table, j))) == Assign(Key(table, j), Value(table, j))
  {
    var a := Assign(Key(table, j), Value(table, j));
    assert a[0] == Key(table, j)[0];
    assert a[|a| - 1] == Value(table, j)[|Value(table, j)| - 1];
    StripPlain(a);
  }

  /** A line the rewrite writes matches its own optimization. */
  lemma MatchOfAssign(table: Table, j: nat)
    requires Good(table)
    requires j < |table|
    ensures MatchOf(table, Assign(Key(table, j), Value(table, j))) == Some(j)
  {
    StripAssign(table, j);
    var a := Assign(Key(table, j), Value(table, j));
    assert a[..|Key(table, j) + "="|] == Key(table, j) + "=";
    FirstMatch(table, a, j);
  }

  /** `k=v`, for plain `k` and `v` with `k` starting like neither a comment nor a header, sets `k` to `v`. */
  lemma EntryOfPlain(k: string, v: string)
    requires Plain(k) && Plain(v) && k[0] != '#' && k[0] != '['
    ensures Entry(Assign(k, v)) == Some((k, v))
  {
    StripPlain(k);
    StripPlain(v);
    var a := Assign(k, v);
    assert a[..|k|] == k && a[|k| + 1..] == v;
    assert Strip(a) == a by {
      assert a[0] == k[0] && a[|a| - 1] == v[|v| - 1];
      StripPlain(a);
    }
    assert IsSetting(a) by {
      assert a[|k|] == '=' && a[0] == k[0];
    }
    assert IndexOf(a, '=') == |k| by {
      IndexOfAfter(k, '=', v);
    }
  }

  /** A line the rewrite writes sets its own key to the recommended value. */
  lemma EntryOfAssign(table: Table, j: nat)
    requires Good(table)
    requires j < |table|
    ensures Entry(Assign(Key(table, j), Value(table, j))) == Some((Key(table, j), Value(table, j)))
  {
    EntryOfPlain(Key(table, j), Value(table, j));
  }

  /** No key is spelled with whitespace before its `=`. */
  predicate WellSpelledLine(table: Table, line: string) {
    forall j :: 0 <= j < |table| && Sets(Entry(line), Key(table, j)) ==> StartsWith(Strip(line), Key(table, j) + "=")
  }

  predicate WellSpelled(table: Table, lines: seq<string>) {
    forall i :: 0 <= i < |lines| ==> WellSpelledLine(table, lines[i])
  }

  /** A well-spelled line that sets a key of the table matches that optimization. */
  lemma SetterMatches(table: Table, line: string, j: nat)
    requires Good(table)
    requires j < |table| && WellSpelledLine(table, line) && Sets(Entry(line), Key(table, j))
    ensures MatchOf(table, line) == Some(j)
  {
    FirstMatch(table, Strip(line), j);
  }

  /** Rewriting a line does not change which optimization it matches. */
  lemma EditKeepsMatch(table: Table, line: string, current: map<string, string>)
    requires Good(table)
    ensures MatchOf(table, EditLine(table, line, current).line) == MatchOf(table, line)
  {
    if EditLine(table, line, current).change.Some? {
      MatchOfAssign(table, MatchOf(table, line).value);
    }
  }

  /** After the rewrite a well-spelled line sets a key of the table only if it matched that optimization. */
  lemma EditSetsOnlyMatched(table: Table, line: string, current: map<string, string>, j: nat)
    requires Good(table)
    requires j < |table| && WellSpelledLine(table, line)
    requires Sets(Entry(EditLine(table, line, current).line), Key(table, j))
    ensures MatchOf(table, line) == Some(j)
  {
    var e := EditLine(table, line, current);
    if e.change.Some? {
      var j' := MatchOf(table, line).value;
      EntryOfAssign(table, j');
      } else {
      SetterMatches(table, line, j);
    }
  }

  /** A section header matches no optimization, and no written line is a header. */
  lemma EditKeepsMain(table: Table, line: string, current: map<string, string>)
    requires Good(table)
    ensures IsMain(EditLine(table, line, current).line) == IsMain(line)
  {
    if IsMain(line) {
      var s := Strip(line);
      assert s[0] == '[';
      forall i | 0 <= i < |table| ensures !Matches(table, s, i) {
      }
    }
    var e := EditLine(table, line, current);
    if e.change.Some? {
      var j := MatchOf(table, line).value;
      StripAssign(table, j);
      assert Assign(Key(table, j), Value(table, j))[0] == Key(table, j)[0];
    }
  }

  /** The first position where two equally long lists both satisfy `p`, when they satisfy it at the same positions. */
  lemma {:induction false} FirstIndexSame(xs: seq<string>, ys: seq<string>, p: string -> bool, from: nat)
    requires |xs| == |ys| && from <= |xs|
    requires forall i :: 0 <= i < |xs| ==> p(xs[i]) == p(ys[i])
    ensures FirstIndex(xs, p, from) == FirstIndex(ys, p, from)
    decreases |xs| - from
  {
    if from < |xs| {
      FirstIndexSame(xs, ys, p, from + 1);
    }
  }

  /** The rewrite leaves the section headers where they were. */
  lemma WrittenMain(table: Table, lines: seq<string>, current: map<string, string>)
    requires Good(table)
    ensures FirstMain(Written(Edits(table, lines, current))) == FirstMain(lines)
  {
    var r := Written(Edits(table, lines, current));
    forall i | 0 <= i < |lines| ensures IsMain(r[i]) == IsMain(lines[i]) {
      EditKeepsMain(table, lines[i], current);
    }
    FirstIndexSame(r, lines, IsMain, 0);
  }

  /** Each optimization is missing exactly when no line applied it. */
  lemma MissingExactly(table: Table, es: seq<Edit>)
    ensures forall j :: 0 <= j < |table| ==> (j in MissingFrom(table, es, 0) <==> !AppliedIn(es, j))
  {
    MissingFromSpec(table, es, 0);
  }

  /** An optimization is applied exactly when some line matches it. */
  lemma AppliedMatched(table: Table, lines: seq<string>, current: map<string, string>, j: nat)
    ensures AppliedIn(Edits(table, lines, current), j) <==> exists i :: 0 <= i < |lines| && MatchOf(table, lines[i]) == Some(j)
  {
    var es := Edits(table, lines, current);
    if AppliedIn(es, j) {
      var i :| 0 <= i < |es| && es[i].applied == Some(j);
      assert MatchOf(table, lines[i]) == Some(j);
    }
    if i :| 0 <= i < |lines| && MatchOf(table, lines[i]) == Some(j) {
      assert es[i].applied == Some(j);
    }
  }

  /**
   * The shape of the rewrite: each input line gives exactly one output line;
   * without a `[main]` line nothing is inserted; with one, the missing
   * settings go right after the first `[main]` line, each recorded as a
   * change after the changes of the rewrite loop.
   */
  lemma RewriteShape(table: Table, lines: seq<string>, current: map<string, string>)
    requires Good(table)
    ensures var es := Edits(table, lines, current);
            var r := Written(es);
            var p := Rewrite(table, lines, current);
            && |r| == |lines|
            && (FirstMain(lines).None? ==> p.lines == r && p.changes == Somes(Recorded(es)))
            && (FirstMain(lines).Some? ==>
                  var m := FirstMain(lines).value;
                  var ms := MissingFrom(table, es, 0);
                  && p.lines == r[..m + 1] + Inserted(table, ms) + r[m + 1..]
                  && p.changes == Somes(Recorded(es)) + NotSet(table, ms))
  {
    var es := Edits(table, lines, current);
    WrittenMain(table, lines, current);
    AssembleShape(table, es);
  }

  lemma AssembleShape(table: Table, es: seq<Edit>)
    ensures FirstMain(Written(es)).None? ==>
              Assemble(table, es).lines == Written(es) && Assemble(table, es).changes == Somes(Recorded(es))
    ensures FirstMain(Written(es)).Some? ==>
              Assemble(table, es).lines
              == Written(es)[..FirstMain(Written(es)).value + 1] + Inserted(table, MissingFrom(table, es, 0))
                 + Written(es)[FirstMain(Written(es)).value + 1..]
    ensures FirstMain(Written(es)).Some? ==>
              Assemble(table, es).changes == Somes(Recorded(es)) + NotSet(table, MissingFrom(table, es, 0))
  {
  }

  /** The settings inserted are the optimizations no line matched, in table order. */
  lemma InsertedUnmatched(table: Table, lines: seq<string>, current: map<string, string>)
    ensures forall s, t :: 0 <= s < t < |MissingFrom(table, Edits(table, lines, current), 0)| ==>
              MissingFrom(table, Edits(table, lines, current), 0)[s] < MissingFrom(table, Edits(table, lines, current), 0)[t]
    ensures forall j :: 0 <= j < |table| ==>
              (j in MissingFrom(table, Edits(table, lines, current), 0)
               <==> forall i :: 0 <= i < |lines| ==> MatchOf(table, lines[i]) != Some(j))
  {
    MissingFromSpec(table, Edits(table, lines, current), 0);
    MissingExactly(table, Edits(table, lines, current));
    forall j | 0 <= j < |table| {
      AppliedMatched(table, lines, current, j);
    }
  }

  /**
   * "DNF already optimized": no change is recorded exactly when every
   * matched line already has its recommended value and, when there is a
   * `[main]` line, every optimization is matched by some line.
   */
  lemma NoChanges(table: Table, lines: seq<string>, current: map<string, string>)
    requires Good(table)
    ensures Rewrite(table, lines, current).changes == [] <==>
              (forall i :: 0 <= i < |lines| && MatchOf(table, lines[i]).Some? ==> Settled(table, current, MatchOf(table, lines[i]).value))
              && (FirstMain(lines).Some? ==>
                    forall j :: 0 <= j < |table| ==> exists i :: 0 <= i < |lines| && MatchOf(table, lines[i]) == Some(j))
  {
    RewriteShape(table, lines, current);
    var es := Edits(table, lines, current);
    SomesEmpty(Recorded(es));
    LoopUnchanged(table, lines, current);
    NothingMissing(table, es);
    forall j | 0 <= j < |table| {
      AppliedMatched(table, lines, current, j);
    }
  }

  /** The rewrite loop records no change exactly when every matched line already has its recommended value. */
  lemma LoopUnchanged(table: Table, lines: seq<string>, current: map<string, string>)
    ensures (forall i :: 0 <= i < |lines| ==> Recorded(Edits(table, lines, current))[i].None?) <==>
              forall i :: 0 <= i < |lines| && MatchOf(table, lines[i]).Some? ==> Settled(table, current, MatchOf(table, lines[i]).value)
  {
    var es := Edits(table, lines, current);
    forall i | 0 <= i < |lines|
      ensures Recorded(es)[i].None? <==> (MatchOf(table, lines[i]).Some? ==> Settled(table, current, MatchOf(table, lines[i]).value))
    {
      assert Recorded(es)[i] == EditLine(table, lines[i], current).change;
    }
  }

  /** Nothing is missing exactly when every optimization was applied. */
  lemma NothingMissing(table: Table, es: seq<Edit>)
    ensures |MissingFrom(table, es, 0)| == 0 <==> forall j :: 0 <= j < |table| ==> AppliedIn(es, j)
  {
    MissingExactly(table, es);
    var ms := MissingFrom(table, es, 0);
    if |ms| > 0 {
      assert ms[0] in ms;
    }
  }

  // ---------------------------------------------------------------------
  // Rewriting twice

  /** Inserting lines that do not set `k` leaves the value read for `k` unchanged. */
  lemma {:induction false} ParseInsertSilent(r: seq<string>, m: nat, ins: seq<string>, entry: string -> Option<(string, string)>, k: string)
    requires m <= |r| && Silent(ins, entry, k)
    ensures Lookup(ParseWith(r[..m] + ins + r[m..], entry), k) == Lookup(ParseWith(r, entry), k)
  {
    ParseAppend(r[..m] + ins, r[m..], entry, k);
    ParseAppend(r[..m], ins, entry, k);
    ParseAppend(r[..m], r[m..], entry, k);
    assert r[..m] + r[m..] == r;
  }

  /** The inserted lines set only the keys of the missing optimizations... */
  lemma InsertedSilent(table: Table, ms: seq<nat>, j: nat)
    requires Good(table)
    requires forall t :: 0 <= t < |ms| ==> ms[t] < |table|
    requires j < |table| && j !in ms
    ensures Silent(Inserted(table, ms), Entry, Key(table, j))
  {
    forall t | 0 <= t < |ms| ensures !Sets(Entry(Inserted(table, ms)[t]), Key(table, j)) {
      EntryOfAssign(table, ms[t]);
    }
  }

  /** ...each to its recommended value. */
  lemma InsertedSets(table: Table, ms: seq<nat>, j: nat)
    requires Good(table)
    requires forall t :: 0 <= t < |ms| ==> ms[t] < |table|
    requires j in ms
    ensures Lookup(ParseWith(Inserted(table, ms), Entry), Key(table, j)) == Some(Value(table, j))
  {
    var ins := Inserted(table, ms);
    var t0 :| 0 <= t0 < |ms| && ms[t0] == j;
    EntryOfAssign(table, j);
    assert Sets(Entry(ins[t0]), Key(table, j));
    forall t | 0 <= t < |ms| && Sets(Entry(ins[t]), Key(table, j)) ensures Entry(ins[t]).value.1 == Value(table, j) {
      EntryOfAssign(table, ms[t]);
    }
    ParseAll(ins, Entry, Key(table, j), Value(table, j));
  }

  /** A setting that already has its value keeps the lines that set it, so it reads the same afterwards. */
  lemma SettledKeeps(table: Table, lines: seq<string>, current: map<string, string>, j: nat)
    requires Good(table)
    requires j < |table| && WellSpelled(table, lines) && Settled(table, current, j)
    ensures Lookup(ParseLines(Written(Edits(table, lines, current))), Key(table, j)) == Lookup(ParseLines(lines), Key(table, j))
  {
    var r := Written(Edits(table, lines, current));
    forall i | 0 <= i < |lines|
      ensures (Sets(Entry(r[i]), Key(table, j)) <==> Sets(Entry(lines[i]), Key(table, j)))
      ensures Sets(Entry(r[i]), Key(table, j)) ==> Entry(r[i]) == Entry(lines[i])
    {
      if Sets(Entry(r[i]), Key(table, j)) {
        EditSetsOnlyMatched(table, lines[i], current, j);
      }
      if Sets(Entry(lines[i]), Key(table, j)) {
        SetterMatches(table, lines[i], j);
      }
    }
    ParseSame(r, lines, Entry, Key(table, j));
  }

  /** A matched setting without its value has every line setting it rewritten, so it reads the recommended value. */
  lemma UnsettledSets(table: Table, lines: seq<string>, current: map<string, string>, j: nat)
    requires Good(table)
    requires j < |table| && WellSpelled(table, lines) && !Settled(table, current, j)
    requires exists i :: 0 <= i < |lines| && MatchOf(table, lines[i]) == Some(j)
    ensures Lookup(ParseLines(Written(Edits(table, lines, current))), Key(table, j)) == Some(Value(table, j))
  {
    var r := Written(Edits(table, lines, current));
    var i0 :| 0 <= i0 < |lines| && MatchOf(table, lines[i0]) == Some(j);
    EntryOfAssign(table, j);
    assert r[i0] == Assign(Key(table, j), Value(table, j));
    assert Sets(Entry(r[i0]), Key(table, j));
    forall i | 0 <= i < |r| && Sets(Entry(r[i]), Key(table, j)) ensures Entry(r[i]).value.1 == Value(table, j) {
      EditSetsOnlyMatched(table, lines[i], current, j);
    }
    ParseAll(r, Entry, Key(table, j), Value(table, j));
  }

  /** A setting no line matches is set by no rewritten line. */
  lemma UnmatchedSilent(table: Table, lines: seq<string>, current: map<string, string>, j: nat)
    requires Good(table)
    requires j < |table| && WellSpelled(table, lines)
    requires forall i :: 0 <= i < |lines| ==> MatchOf(table, lines[i]) != Some(j)
    ensures Silent(Written(Edits(table, lines, current)), Entry, Key(table, j))
  {
    var r := Written(Edits(table, lines, current));
    forall i | 0 <= i < |r| ensures !Sets(Entry(r[i]), Key(table, j)) {
      if Sets(Entry(r[i]), Key(table, j)) {
        EditSetsOnlyMatched(table, lines[i], current, j);
      }
    }
  }

  /** A setting that has its value names a key the configuration sets. */
  lemma SettledPresent(table: Table, m: map<string, string>, j: nat)
    requires Good(table)
    requires j < |table| && Settled(table, m, j)
    ensures Lookup(m, Key(table, j)).Some? && Lower(Lookup(m, Key(table, j)).value) == Lower(Value(table, j))
  {
    assert |Lower(Get(m, Key(table, j), ""))| > 0;
  }

  lemma SilentSuffix(r: seq<string>, m: nat, entry: string -> Option<(string, string)>, k: string)
    requires m <= |r| && Silent(r, entry, k)
    ensures Silent(r[m..], entry, k)
  {
    forall i | 0 <= i < |r| - m ensures !Sets(entry(r[m..][i]), k) {
      assert r[m..][i] == r[m + i];
    }
  }

  /** A setting some line matches is not inserted, so it reads as it does after the rewrite loop. */
  lemma PlanReadsWritten(table: Table, lines: seq<string>, current: map<string, string>, j: nat)
    requires Good(table)
    requires j < |table|
    requires exists i :: 0 <= i < |lines| && MatchOf(table, lines[i]) == Some(j)
    ensures Lookup(ParseLines(Rewrite(table, lines, current).lines), Key(table, j))
            == Lookup(ParseLines(Written(Edits(table, lines, current))), Key(table, j))
  {
    var es := Edits(table, lines, current);
    RewriteShape(table, lines, current);
    if FirstMain(lines).Some? {
      var ms := MissingFrom(table, es, 0);
      InsertedUnmatched(table, lines, current);
      InsertedSilent(table, ms, j);
      ParseInsertSilent(Written(es), FirstMain(lines).value + 1, Inserted(table, ms), Entry, Key(table, j));
    }
  }

  /** After one rewrite, a setting some line matched reads its recommended value. */
  lemma MatchedAfter(table: Table, lines: seq<string>, j: nat)
    requires Good(table)
    requires j < |table| && WellSpelled(table, lines)
    requires exists i :: 0 <= i < |lines| && MatchOf(table, lines[i]) == Some(j)
    ensures Settled(table, ParseLines(Rewrite(table, lines, ParseLines(lines)).lines), j)
  {
    var cur := ParseLines(lines);
    PlanReadsWritten(table, lines, cur, j);
    if Settled(table, cur, j) {
      SettledKeeps(table, lines, cur, j);
      SettledPresent(table, cur, j);
    } else {
      UnsettledSets(table, lines, cur, j);
    }
  }

  /** After one rewrite, a setting no line matched reads its recommended value when there is a `[main]` line. */
  lemma InsertedAfter(table: Table, lines: seq<string>, j: nat)
    requires Good(table)
    requires j < |table| && WellSpelled(table, lines) && FirstMain(lines).Some?
    requires forall i :: 0 <= i < |lines| ==> MatchOf(table, lines[i]) != Some(j)
    ensures Settled(table, ParseLines(Rewrite(table, lines, ParseLines(lines)).lines), j)
  {
    var cur := ParseLines(lines);
    var es := Edits(table, lines, cur);
    WrittenMain(table, lines, cur);
    AppliedMatched(table, lines, cur, j);
    UnmatchedSilent(table, lines, cur, j);
    AssembleInserts(table, es, j);
  }

  /** A setting no line applied and no line sets reads its recommended value once inserted after `[main]`. */
  lemma AssembleInserts(table: Table, es: seq<Edit>, j: nat)
    requires Good(table)
    requires j < |table| && FirstMain(Written(es)).Some? && !AppliedIn(es, j)
    requires Silent(Written(es), Entry, Key(table, j))
    ensures Lookup(ParseLines(Assemble(table, es).lines), Key(table, j)) == Some(Value(table, j))
  {
    var r := Written(es);
    var ms := MissingFrom(table, es, 0);
    var m := FirstMain(r).value;
    MissingFromSpec(table, es, 0);
    assert j in ms;
    InsertedSets(table, ms, j);
    ParseInsertSets(r, m + 1, Inserted(table, ms), Entry, Key(table, j), Value(table, j));
  }

  /** Inserting lines that set `k` to `v` into lines that do not set it makes `k` read `v`. */
  lemma ParseInsertSets(r: seq<string>, m: nat, ins: seq<string>, entry: string -> Option<(string, string)>, k: string, v: string)
    requires m <= |r| && Silent(r, entry, k)
    requires Lookup(ParseWith(ins, entry), k) == Some(v)
    ensures Lookup(ParseWith(r[..m] + ins + r[m..], entry), k) == Some(v)
  {
    SilentSuffix(r, m, entry, k);
    ParseSilent(ins, entry, k);
    ParseAppend(r[..m] + ins, r[m..], entry, k);
    ParseAppend(r[..m], ins, entry, k);
  }

  /** Every written line matches the optimization its edit applied. */
  predicate Faithful(table: Table, es: seq<Edit>) {
    forall i :: 0 <= i < |es| ==> MatchOf(table, es[i].line) == es[i].applied
  }

  lemma EditsFaithful(table: Table, lines: seq<string>, current: map<string, string>)
    requires Good(table)
    ensures Faithful(table, Edits(table, lines, current))
  {
    var es := Edits(table, lines, current);
    forall i | 0 <= i < |es| ensures MatchOf(table, es[i].line) == es[i].applied {
      EditKeepsMatch(table, lines[i], current);
    }
  }

  /** Without a `[main]` line, a line of the result matches only optimizations the loop applied. */
  lemma AssembleMatches(table: Table, es: seq<Edit>, i: nat)
    requires Faithful(table, es)
    requires i < |Assemble(table, es).lines| && MatchOf(table, Assemble(table, es).lines[i]).Some?
    ensures MatchOf(table, Assemble(table, es).lines[i]).value < |table|
    ensures AppliedIn(es, MatchOf(table, Assemble(table, es).lines[i]).value) || FirstMain(Written(es)).Some?
  {
    var n := Assemble(table, es).lines[i];
    if FirstMain(Written(es)).None? {
      assert n == es[i].line;
    } else {
      assert MatchFrom(table, Strip(n), 0).Some?;
    }
  }

  /** Where the lines of `r` and of `ins` end up once `ins` is inserted after position `m`. */
  lemma Placed(r: seq<string>, m: nat, ins: seq<string>, ls: seq<string>)
    requires m < |r| && ls == r[..m + 1] + ins + r[m + 1..]
    ensures |ls| == |r| + |ins|
    ensures forall k {:trigger ls[k]} :: 0 <= k <= m ==> ls[k] == r[k]
    ensures forall k :: m < k <= m + |ins| ==> ls[k] == ins[k - m - 1]
    ensures forall k :: m + |ins| < k < |ls| ==> ls[k] == r[k - |ins|]
  {
  }

  /** With a `[main]` line, an optimization is matched by some line of the result. */
  lemma CoverOne(table: Table, es: seq<Edit>, j: nat)
    requires Good(table)
    requires Faithful(table, es) && j < |table| && FirstMain(Written(es)).Some?
    ensures exists i :: 0 <= i < |Assemble(table, es).lines| && MatchOf(table, Assemble(table, es).lines[i]) == Some(j)
  {
    var r := Written(es);
    var m := FirstMain(r).value;
    var ms := MissingFrom(table, es, 0);
    var ls := Assemble(table, es).lines;
    AssembleShape(table, es);
    if AppliedIn(es, j) {
      CoverKept(table, es, m, Inserted(table, ms), ls, j);
    } else {
      MissingExactly(table, es);
      CoverInserted(table, ms, r, m, ls, j);
    }
  }

  /** An applied optimization keeps a line matching it wherever the insertion goes. */
  lemma CoverKept(table: Table, es: seq<Edit>, m: nat, ins: seq<string>, ls: seq<string>, j: nat)
    requires Faithful(table, es) && AppliedIn(es, j)
    requires m < |es| && ls == Written(es)[..m + 1] + ins + Written(es)[m + 1..]
    ensures exists i :: 0 <= i < |ls| && MatchOf(table, ls[i]) == Some(j)
  {
    var r := Written(es);
    var i0 :| 0 <= i0 < |es| && es[i0].applied == Some(j);
    assert MatchOf(table, r[i0]) == Some(j);
    Placed(r, m, ins, ls);
    if i0 <= m {
      assert ls[i0] == r[i0];
    } else {
      assert ls[i0 + |ins|] == r[i0];
    }
  }

  /** A missing optimization is matched by the line inserted for it. */
  lemma CoverInserted(table: Table, ms: seq<nat>, r: seq<string>, m: nat, ls: seq<string>, j: nat)
    requires Good(table) && j in ms
    requires forall t :: 0 <= t < |ms| ==> ms[t] < |table|
    requires m < |r| && ls == r[..m + 1] + Inserted(table, ms) + r[m + 1..]
    ensures exists i :: 0 <= i < |ls| && MatchOf(table, ls[i]) == Some(j)
  {
    var t :| 0 <= t < |ms| && ms[t] == j;
    Placed(r, m, Inserted(table, ms), ls);
    assert ls[m + 1 + t] == Inserted(table, ms)[t];
    MatchOfAssign(table, j);
  }

  /** With a `[main]` line, every optimization is matched by some line of the result. */
  lemma AssembleCovers(table: Table, es: seq<Edit>)
    requires Good(table)
    requires Faithful(table, es)
    ensures FirstMain(Assemble(table, es).lines).Some? ==>
              forall j :: 0 <= j < |table| ==>
                exists i :: 0 <= i < |Assemble(table, es).lines| && MatchOf(table, Assemble(table, es).lines[i]) == Some(j)
  {
    if FirstMain(Written(es)).Some? {
      forall j | 0 <= j < |table| {
        CoverOne(table, es, j);
      }
    }
  }

  /**
   * Rewriting the result again records no change, provided no line of the
   * original spells an optimization key with whitespace before its `=`
   * (such a line is read as a setting but matched by no optimization).
   */
  lemma Idempotent(table: Table, lines: seq<string>)
    requires Good(table)
    requires WellSpelled(table, lines)
    ensures var p := Rewrite(table, lines, ParseLines(lines));
            Rewrite(table, p.lines, ParseLines(p.lines)).changes == []
  {
    var cur := ParseLines(lines);
    var es := Edits(table, lines, cur);
    var ls := Assemble(table, es).lines;
    var cur2 := ParseLines(ls);
    NoChanges(table, ls, cur2);
    forall i | 0 <= i < |ls| && MatchOf(table, ls[i]).Some? ensures Settled(table, cur2, MatchOf(table, ls[i]).value) {
      ResultSettled(table, lines, i);
    }
    EditsFaithful(table, lines, cur);
    AssembleCovers(table, es);
  }

  /** After one rewrite, every line of the result that matches an optimization reads its recommended value. */
  lemma ResultSettled(table: Table, lines: seq<string>, i: nat)
    requires Good(table) && WellSpelled(table, lines)
    requires var ls := Rewrite(table, lines, ParseLines(lines)).lines;
             i < |ls| && MatchOf(table, ls[i]).Some?
    ensures var ls := Rewrite(table, lines, ParseLines(lines)).lines;
            Settled(table, ParseLines(ls), MatchOf(table, ls[i]).value)
  {
    var cur := ParseLines(lines);
    var es := Edits(table, lines, cur);
    EditsFaithful(table, lines, cur);
    WrittenMain(table, lines, cur);
    AssembleMatches(table, es, i);
    var j := MatchOf(table, Assemble(table, es).lines[i]).value;
    AppliedMatched(table, lines, cur, j);
    if AppliedIn(es, j) {
      MatchedAfter(table, lines, j);
    } else {
      InsertedAfter(table, lines, j);
    }
  }

  // ---------------------------------------------------------------------
  // apply_optimizations: reading, writing back, and the result

  /** `OptimizationResult` */
  datatype OptimizationResult = OptimizationResult(success: bool, message: string, changes: seq<string>)

  /** The result together with the text written back to the configuration, if any. */
  datatype Applied = Applied(result: OptimizationResult, written: Option<string>)

  /** The text the rewrite starts from: the file's, or a bare `[main]` header when there is no file. */
  function Source(f: ConfFile): Option<string> {
    match f
    case Missing => Some("[main]" + "\n")
    case Unreadable(_) => None
    case Present(content) => Some(content)
  }

  /** Inserting lines without `c` among lines without `c` leaves no line with `c`. */
  lemma PlacedLacks(r: seq<string>, m: nat, ins: seq<string>, c: char, ls: seq<string>)
    requires m < |r| && ls == r[..m + 1] + ins + r[m + 1..]
    requires forall i :: 0 <= i < |r| ==> c !in r[i]
    requires forall t :: 0 <= t < |ins| ==> c !in ins[t]
    ensures forall i :: 0 <= i < |ls| ==> c !in ls[i]
  {
    forall i | 0 <= i < |ls| ensures c !in ls[i] {
      if i <= m {
        assert ls[i] == r[i];
      } else if i <= m + |ins| {
        assert ls[i] == ins[i - m - 1];
      } else {
        assert ls[i] == r[i - |ins|];
      }
    }
  }

  /** A line the rewrite writes holds a newline only if the line it read did. */
  lemma EditLinePlain(table: Table, line: string, current: map<string, string>)
    requires Good(table)
    requires '\n' !in line
    ensures '\n' !in EditLine(table, line, current).line
  {
    if MatchOf(table, line).Some? {
      assert GoodEntry(table[MatchOf(table, line).value]);
    }
  }

  lemma AssembleLacks(table: Table, es: seq<Edit>)
    requires Good(table)
    requires forall i :: 0 <= i < |es| ==> '\n' !in es[i].line
    ensures forall i :: 0 <= i < |Assemble(table, es).lines| ==> '\n' !in Assemble(table, es).lines[i]
  {
    var r := Written(es);
    if FirstMain(r).Some? {
      var m := FirstMain(r).value;
      var ms := MissingFrom(table, es, 0);
      var ins := Inserted(table, ms);
      forall t | 0 <= t < |ins| ensures '\n' !in ins[t] {
        assert GoodEntry(table[ms[t]]);
      }
      PlacedLacks(r, m, ins, '\n', Assemble(table, es).lines);
    }
  }

  /** No line of the rewrite holds a newline when no line it started from does. */
  lemma RewriteLinesPlain(table: Table, lines: seq<string>, current: map<string, string>)
    requires Good(table)
    requires forall i :: 0 <= i < |lines| ==> '\n' !in lines[i]
    ensures forall i :: 0 <= i < |Rewrite(table, lines, current).lines| ==> '\n' !in Rewrite(table, lines, current).lines[i]
  {
    var es := Edits(table, lines, current);
    forall i | 0 <= i < |es| ensures '\n' !in es[i].line {
      EditLinePlain(table, lines[i], current);
    }
    AssembleLacks(table, es);
  }

  /**
   * `apply_optimizations`, given the file, whether the `echo` write
   * succeeded, and the error, if any, raised while staging the temporary
   * copy when it did not. The exit status of the `cp` is not consulted.
   */
  function ApplyOptimizations(table: Table, f: ConfFile, echoed: bool, tempError: Option<string>): (a: Applied)
    requires Good(table)
    ensures f.Unreadable? ==> a == Applied(OptimizationResult(false, "Cannot read DNF config: " + f.error, []), None)
    ensures !f.Unreadable? ==>
              var lines := Split(Source(f).value, '\n');
              var p := Rewrite(table, lines, CurrentConfig(f));
              && a.written == Some(Join(p.lines, "\n"))
              && Split(a.written.value, '\n') == p.lines
              && (!echoed && tempError.Some? ==> a.result == OptimizationResult(false, "Failed to write config: " + tempError.value, []))
              && (echoed || tempError.None? ==> a.result.success && a.result.changes == p.changes)
    ensures a.result.success ==>
              (a.result.changes == [] <==> a.result.message == "DNF already optimized")
    ensures a.result.success && a.result.changes != [] ==>
              a.result.message == "Applied " + NatStr(|a.result.changes|) + " optimization(s)"
  {
    match Source(f)
    case None => Applied(OptimizationResult(false, "Cannot read DNF config: " + f.error, []), None)
    case Some(text) =>
      var lines := Split(text, '\n');
      var p := Rewrite(table, lines, CurrentConfig(f));
      var content := Join(p.lines, "\n");
      assert Split(content, '\n') == p.lines by {
        SplitPartsNoSep(text, '\n');
        RewriteLinesPlain(table, lines, CurrentConfig(f));
        assert |p.lines| >= 1 by { RewriteShape(table, lines, CurrentConfig(f)); }
        SplitJoin(p.lines, '\n');
      }
      var result :=
        if !echoed && tempError.Some? then OptimizationResult(false, "Failed to write config: " + tempError.value, [])
        else if p.changes != [] then OptimizationResult(true, "Applied " + NatStr(|p.changes|) + " optimization(s)", p.changes)
        else OptimizationResult(true, "DNF already optimized", []);
      assert "Applied " + NatStr(|p.changes|) + " optimization(s)" != "DNF already optimized" by {
        assert ("Applied " + NatStr(|p.changes|) + " optimization(s)")[0] == 'A';
      }
      Applied(result, Some(content))
  }

  /** A line that starts with `[` matches no optimization. */
  lemma HeaderUnmatched(table: Table, s: string, j: nat)
    requires Good(table)
    requires |s| > 0 && s[0] == '[' && j < |table|
    ensures !Matches(table, s, j)
  {
    assert GoodEntry(table[j]);
  }

  /** When no line applies an optimization, all of them from `j` on are missing, in table order. */
  lemma {:induction false} NoneApplied(table: Table, es: seq<Edit>, j: nat)
    requires j <= |table|
    requires forall i :: 0 <= i < |es| ==> es[i].applied.None?
    ensures |MissingFrom(table, es, j)| == |table| - j
    ensures forall t :: 0 <= t < |MissingFrom(table, es, j)| ==> MissingFrom(table, es, j)[t] == j + t
    decreases |table| - j
  {
    if j < |table| {
      assert !AppliedIn(es, j);
      NoneApplied(table, es, j + 1);
      var rest := MissingFrom(table, es, j + 1);
      assert MissingFrom(table, es, j) == [j] + rest;
      assert |[j] + rest| == 1 + |rest|;
      forall t | 0 < t < |rest| + 1 ensures ([j] + rest)[t] == j + t {
        assert ([j] + rest)[t] == rest[t - 1];
      }
    }
  }

  /** When no line applies an optimization, every one of them is missing, in table order. */
  lemma NoneMissing(table: Table, es: seq<Edit>, ms: seq<nat>)
    requires InOrder(table, ms)
    requires forall i :: 0 <= i < |es| ==> es[i].applied.None?
    ensures MissingFrom(table, es, 0) == ms
  {
    NoneApplied(table, es, 0);
    var missing := MissingFrom(table, es, 0);
    assert forall t :: 0 <= t < |ms| ==> missing[t] == ms[t];
  }

  /** The `[main]` header matches no optimization. */
  lemma MainUnmatched(table: Table, h: string)
    requires Good(table)
    requires IsMain(h)
    ensures MatchOf(table, h) == None
  {
    forall j | 0 <= j < |table| ensures !Matches(table, Strip(h), j) {
      HeaderUnmatched(table, Strip(h), j);
    }
  }

  /** `ms` lists every position of the table, in order. */
  predicate InOrder(table: Table, ms: seq<nat>) {
    |ms| == |table| && forall t :: 0 <= t < |ms| ==> ms[t] == t
  }

  /** The rewrite of a header line followed by an empty one: nothing matched, every setting inserted after the header. */
  lemma BareRewrite(table: Table, h: string, ms: seq<nat>)
    requires Good(table)
    requires IsMain(h) && InOrder(table, ms)
    ensures var p := Rewrite(table, [h, ""], map[]);
            && p.lines == [h] + Inserted(table, ms) + [""]
            && p.changes == NotSet(table, ms)
  {
    var es := Edits(table, [h, ""], map[]);
    BareEdits(table, h);
    assert Written(es) == [h, ""];
    assert FirstMain([h, ""]) == Some(0);
    NoneMissing(table, es, ms);
    AssembleShape(table, es);
    assert [h, ""][..1] == [h] && [h, ""][1..] == [""];
    assert Somes(Recorded(es)) == [];
  }

  /** Neither a header line nor an empty line matches anything, so the rewrite loop leaves both alone. */
  lemma BareEdits(table: Table, h: string)
    requires Good(table) && IsMain(h)
    ensures Edits(table, [h, ""], map[]) == [Edit(h, None, None), Edit("", None, None)]
  {
    MainUnmatched(table, h);
    EmptyUnmatched(table);
  }

  lemma EmptyUnmatched(table: Table)
    ensures MatchOf(table, "") == None
  {
    forall j | 0 <= j < |table| ensures !Matches(table, Strip(""), j) {
    }
  }

  /** A text holding only a header line and its newline rewrites like the two lines it splits into. */
  lemma HeaderText(table: Table, h: string, ms: seq<nat>)
    requires Good(table)
    requires IsMain(h) && '\n' !in h && InOrder(table, ms)
    ensures var p := Rewrite(table, Split(h + "\n", '\n'), map[]);
            && p.lines == [h] + Inserted(table, ms) + [""]
            && p.changes == NotSet(table, ms)
  {
    SplitHeader(h);
    BareRewrite(table, h, ms);
  }

  /** Without a file, the rewrite plan is the bare header's. */
  lemma MissingRewrite(table: Table, ms: seq<nat>)
    requires Good(table)
    requires InOrder(table, ms)
    ensures var p := Rewrite(table, Split(Source(Missing).value, '\n'), CurrentConfig(Missing));
            && p.lines == ["[main]"] + Inserted(table, ms) + [""]
            && p.changes == NotSet(table, ms)
  {
    MissingSource();
    HeaderText(table, "[main]", ms);
  }

  /**
   * Without a file, the rewrite starts from a bare `[main]` and inserts
   * every setting of the table after it, each recorded as not set before
   * (six of them for `OPTIMIZATIONS`).
   */
  lemma MissingFile(table: Table, ms: seq<nat>, echoed: bool, tempError: Option<string>)
    requires Good(table) && |table| > 0 && InOrder(table, ms) && (echoed || tempError.None?)
    ensures var a := ApplyOptimizations(table, Missing, echoed, tempError);
            && a.result == OptimizationResult(true, "Applied " + NatStr(|table|) + " optimization(s)", NotSet(table, ms))
            && a.written.Some?
            && Split(a.written.value, '\n') == ["[main]"] + Inserted(table, ms) + [""]
  {
    var a := ApplyOptimizations(table, Missing, echoed, tempError);
    MissingRewrite(table, ms);
    assert a.result.success && a.result.changes == NotSet(table, ms);
  }

  /** A text holding only a header line and its newline sets nothing. */
  lemma HeaderSetsNothing(h: string)
    requires IsMain(h) && '\n' !in h
    ensures ParseLines(Split(h + "\n", '\n')) == map[]
  {
    SplitHeader(h);
    MainSetsNothing(h);
    assert Entry("") == None;
    ParseTwoNothing(h, "", Entry);
  }

  /** A section header sets nothing. */
  lemma MainSetsNothing(h: string)
    requires IsMain(h)
    ensures Entry(h) == None
  {
    assert Strip(h)[0] == '[';
  }

  /** Two lines that set nothing read as no settings. */
  lemma ParseTwoNothing(a: string, b: string, entry: string -> Option<(string, string)>)
    requires entry(a).None? && entry(b).None?
    ensures ParseWith([a, b], entry) == map[]
  {
    assert [a][..0] == [];
    assert ParseWith([a], entry) == map[];
    assert [a, b][..1] == [a];
  }

  /** A header line and its newline split into the header and an empty last line. */
  lemma SplitHeader(h: string)
    requires '\n' !in h
    ensures Split(h + "\n", '\n') == [h, ""]
  {
    assert h + "\n" == h + ['\n'] + "";
    SplitCons(h, "", '\n');
    assert Split("", '\n') == [""];
  }

  /** Without a file the text is a bare `[main]` header line and its newline. */
  lemma MissingSource()
    ensures Source(Missing).value == "[main]" + "\n" && IsMain("[main]") && '\n' !in "[main]"
  {
    MainIsMain();
    MainOneLine();
  }

  lemma MainIsMain()
    ensures IsMain("[main]")
  {
    StripPlain("[main]");
  }

  lemma MainOneLine()
    ensures '\n' !in "[main]"
  {
  }

  /** The bare header sets nothing, so reading it gives what a missing file gives. */
  lemma MissingConfig()
    ensures ParseLines(Split(Source(Missing).value, '\n')) == CurrentConfig(Missing)
  {
    MissingSource();
    HeaderSetsNothing("[main]");
  }

  /** The configuration a readable file yields is the one read from the lines the rewrite starts from. */
  lemma ConfigOfSource(f: ConfFile)
    requires !f.Unreadable?
    ensures CurrentConfig(f) == ParseLines(Split(Source(f).value, '\n'))
  {
    if f.Missing? {
      MissingConfig();
    }
  }

  /**
   * Applying the optimizations to the text they wrote reports that DNF is
   * already optimized, provided no line of the original spells an
   * optimization key with whitespace before its `=`.
   */
  lemma AppliedTwice(table: Table, f: ConfFile, echoed: bool, tempError: Option<string>, echoed2: bool, tempError2: Option<string>)
    requires Good(table) && !f.Unreadable? && WellSpelled(table, Split(Source(f).value, '\n'))
    requires echoed2 || tempError2.None?
    ensures var a := ApplyOptimizations(table, f, echoed, tempError);
            && a.written.Some?
            && ApplyOptimizations(table, Present(a.written.value), echoed2, tempError2).result
               == OptimizationResult(true, "DNF already optimized", [])
  {
    var lines := Split(Source(f).value, '\n');
    var a := ApplyOptimizations(table, f, echoed, tempError);
    ConfigOfSource(f);
    var p := Rewrite(table, lines, ParseLines(lines));
    Idempotent(table, lines);
    assert Split(a.written.value, '\n') == p.lines;
    var b := ApplyOptimizations(table, Present(a.written.value), echoed2, tempError2);
    assert b.result.success && b.result.changes == [];
  }

  // ---------------------------------------------------------------------
  // Writing back, and `run`

  const ConfPath := "/etc/dnf/dnf.conf"

  /** The first way of writing the new text: `echo` through a root shell. */
  function EchoCmd(content: string): Exec.Cmd {
    Exec.Sudo(["bash", "-c", "echo '" + content + "' > " + ConfPath])
  }

  /** The fallback: copying the staged temporary file over the configuration. */
  const CopyCmd: Exec.Cmd := Exec.Sudo(["cp", "/tmp/dnf.conf.tmp", ConfPath])

  /** `clean_cache` */
  const CleanCmd: Exec.Cmd := Exec.Sudo(["dnf", "clean", "all"])

  /** `update_cache` */
  const RefreshCmd: Exec.Cmd := Exec.Sudo(["dnf", "makecache", "--refresh"])

  /** The commands `run` issues after `apply_optimizations` returns. */
  function Followups(r: OptimizationResult): seq<Exec.Cmd> {
    if r.success && r.changes != [] then [CleanCmd, RefreshCmd] else []
  }

  /** The result of `run` and the world after it. */
  datatype Optimized = Optimized(result: OptimizationResult, w: Exec.World)

  /**
   * `run`: `apply_optimizations` with its writes issued against the world,
   * then, when it changed something, `clean_cache` and `update_cache`. The
   * error, if any, raised while staging the temporary copy is a parameter.
   * The result is the one `ApplyOptimizations` gives for the echo's success:
   * the outcome of the copy, and of the two cache commands, is never consulted.
   */
  function RunOptimizer(table: Table, f: ConfFile, w: Exec.World, tempError: Option<string>): (o: Optimized)
    requires Good(table)
    ensures o.result == ApplyOptimizations(table, f, Exec.Nth(w, 0).ok, tempError).result
    ensures f.Unreadable? ==> o.w == w
    ensures !f.Unreadable? ==>
              var content := ApplyOptimizations(table, f, Exec.Nth(w, 0).ok, tempError).written.value;
              var copied := !Exec.Nth(w, 0).ok && tempError.None?;
              && o.w.issued == w.issued + [EchoCmd(content)] + (if copied then [CopyCmd] else []) + Followups(o.result)
              && Exec.Moved(w, o.w, 1 + (if copied then 1 else 0) + |Followups(o.result)|, 0)
  {
    if f.Unreadable? then Optimized(ApplyOptimizations(table, f, true, tempError).result, w)
    else
      var content := ApplyOptimizations(table, f, Exec.Nth(w, 0).ok, tempError).written.value;
      var echo := Exec.Run(w, EchoCmd(content));
      assert echo.ok == Exec.Nth(w, 0).ok;
      var a := ApplyOptimizations(table, f, echo.ok, tempError);
      if !echo.ok && tempError.Some? then Optimized(a.result, echo.w)
      else
        var w1 := if echo.ok then echo.w else Exec.Run(echo.w, CopyCmd).w;
        assert w1.issued == w.issued + [EchoCmd(content)] + (if echo.ok then [] else [CopyCmd]);
        assert Exec.Moved(w, w1, 1 + (if echo.ok then 0 else 1), 0);
        Optimized(a.result, Exec.RunAll(w1, Followups(a.result)).w)
  }

  /** An insertion with nothing recorded leaves the rewritten lines alone, and no line was changed. */
  lemma AssembleUnchanged(table: Table, es: seq<Edit>)
    requires Assemble(table, es).changes == []
    ensures Assemble(table, es).lines == Written(es)
    ensures forall i :: 0 <= i < |es| ==> es[i].change.None?
  {
    var r := Written(es);
    assert |Somes(Recorded(es))| == 0;
    SomesEmpty(Recorded(es));
    if FirstMain(r).Some? {
      var m := FirstMain(r).value;
      assert |NotSet(table, MissingFrom(table, es, 0))| == 0;
      assert Inserted(table, MissingFrom(table, es, 0)) == [];
      assert r[..m + 1] + [] + r[m + 1..] == r;
    }
  }

  /** A rewrite that records no change writes back exactly the lines it read. */
  lemma RewriteUnchanged(table: Table, lines: seq<string>, current: map<string, string>)
    requires Rewrite(table, lines, current).changes == []
    ensures Rewrite(table, lines, current).lines == lines
  {
    var es := Edits(table, lines, current);
    AssembleUnchanged(table, es);
    assert Written(es) == lines;
  }

  /**
   * Applying the optimizations again to the content they computed computes
   * the same content. This is about `new_content`, not the bytes on disk:
   * the `echo` write adds a newline that is not modelled.
   */
  lemma WrittenStable(table: Table, f: ConfFile, echoed: bool, tempError: Option<string>, echoed2: bool, tempError2: Option<string>)
    requires Good(table) && !f.Unreadable? && WellSpelled(table, Split(Source(f).value, '\n'))
    ensures var a := ApplyOptimizations(table, f, echoed, tempError);
            && a.written.Some?
            && ApplyOptimizations(table, Present(a.written.value), echoed2, tempError2).written == a.written
  {
    var a := ApplyOptimizations(table, f, echoed, tempError);
    var x := a.written.value;
    AppliedTwice(table, f, echoed, tempError, true, None);
    var lines := Split(x, '\n');
    assert Rewrite(table, lines, CurrentConfig(Present(x))).changes == [];
    RewriteUnchanged(table, lines, CurrentConfig(Present(x)));
    JoinSplit(x, '\n');
  }

  /**
   * Running the optimizer over the content it computed finds nothing to
   * change: it writes the same content back and issues no cache command.
   */
  lemma RunTwice(table: Table, f: ConfFile, w: Exec.World, tempError: Option<string>, w2: Exec.World)
    requires Good(table) && !f.Unreadable? && WellSpelled(table, Split(Source(f).value, '\n'))
    requires Exec.Nth(w2, 0).ok
    ensures var a := ApplyOptimizations(table, f, Exec.Nth(w, 0).ok, tempError);
            var o := RunOptimizer(table, Present(a.written.value), w2, None);
            && o.result == OptimizationResult(true, "DNF already optimized", [])
            && o.w.issued == w2.issued + [EchoCmd(a.written.value)]
  {
    var a := ApplyOptimizations(table, f, Exec.Nth(w, 0).ok, tempError);
    AppliedTwice(table, f, Exec.Nth(w, 0).ok, tempError, true, None);
    WrittenStable(table, f, Exec.Nth(w, 0).ok, tempError, true, None);
  }
}
