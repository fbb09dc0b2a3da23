/** The JavaScript string operations the bulk-email code relies on:
    `trim`, `split` by a character class, `join`, `includes`, `startsWith`,
    ASCII `toLowerCase`, and number-to-string interpolation. */
module Strings {

  /** The characters matched by JavaScript's `\s` and removed by `trim`:
      tab, line feed, vertical tab, form feed, carriage return, space,
      no-break space, the Unicode space separators, the line and paragraph
      separators and the byte-order mark. */
  predicate IsSpace(c: char) {
    || ('\t' <= c <= '\r')
    || c == ' '
    || c == '\U{A0}'
    || c == '\U{1680}'
    || ('\U{2000}' <= c <= '\U{200A}')
    || c == '\U{2028}' || c == '\U{2029}'
    || c == '\U{202F}' || c == '\U{205F}'
    || c == '\U{3000}'
    || c == '\U{FEFF}'
  }

  /** No character of `s` is in `cs`. */
  predicate NoneIn(s: string, cs: set<char>) {
    forall k :: 0 <= k < |s| ==> s[k] !in cs
  }

  /** `t` occurs in `s` starting at index `i`. */
  predicate IsInfixAt(t: string, s: string, i: int) {
    0 <= i && i + |t| <= |s| && s[i..i + |t|] == t
  }

  ghost predicate IsInfix(t: string, s: string) {
    exists i :: IsInfixAt(t, s, i)
  }

  predicate IsTrimmed(s: string) {
    s == [] || (!IsSpace(s[0]) && !IsSpace(s[|s| - 1]))
  }

  /** Drops the white space at the start. */
  function TrimStart(s: string): string
    decreases |s|
  {
    if s != [] && IsSpace(s[0]) then TrimStart(s[1..]) else s
  }

  /** Drops the white space at the end. */
  function TrimEnd(s: string): string
    decreases |s|
  {
    if s != [] && IsSpace(s[|s| - 1]) then TrimEnd(s[..|s| - 1]) else s
  }

  /** `String.prototype.trim`. */
  function Trim(s: string): string {
    TrimEnd(TrimStart(s))
  }

  /** `TrimStart` removes a prefix made only of white space, and stops at
      the first other character. */
  lemma {:induction false} TrimStartSpec(s: string)
    ensures |TrimStart(s)| <= |s| && TrimStart(s) == s[|s| - |TrimStart(s)|..]
    ensures forall k :: 0 <= k < |s| - |TrimStart(s)| ==> IsSpace(s[k])
    ensures TrimStart(s) == [] || !IsSpace(TrimStart(s)[0])
    decreases |s|
  {
    if s != [] && IsSpace(s[0]) {
      TrimStartSpec(s[1..]);
      assert forall k :: 1 <= k < |s| ==> s[k] == s[1..][k - 1];
    }
  }

  /** `TrimEnd` removes a suffix made only of white space, and stops at the
      last other character. */
  lemma {:induction false} TrimEndSpec(s: string)
    ensures |TrimEnd(s)| <= |s| && TrimEnd(s) == s[..|TrimEnd(s)|]
    ensures forall k :: |TrimEnd(s)| <= k < |s| ==> IsSpace(s[k])
    ensures TrimEnd(s) == [] || !IsSpace(TrimEnd(s)[|TrimEnd(s)| - 1])
    decreases |s|
  {
    if s != [] && IsSpace(s[|s| - 1]) {
      TrimEndSpec(s[..|s| - 1]);
      assert forall k :: 0 <= k < |s| - 1 ==> s[k] == s[..|s| - 1][k];
    }
  }

  /** The result of `trim` has no white space at either end and is the
      part of the input after its leading white space. */
  lemma TrimSpec(s: string)
    ensures IsTrimmed(Trim(s))
    ensures IsInfixAt(Trim(s), s, |s| - |TrimStart(s)|)
  {
    var t := TrimStart(s);
    var r := TrimEnd(t);
    TrimStartSpec(s);
    TrimEndSpec(t);
    assert r != [] ==> r[0] == t[0];
    assert s[|s| - |t|..][..|r|] == r;
  }

  /** Trimming yields the empty string exactly for all-white-space input. */
  lemma TrimEmpty(s: string)
    ensures (Trim(s) == []) <==> (forall k :: 0 <= k < |s| ==> IsSpace(s[k]))
  {
    var t := TrimStart(s);
    TrimStartSpec(s);
    TrimEndSpec(t);
    if t != [] {
      assert !IsSpace(t[0]);
      assert TrimEnd(t) != [];
      assert t[0] == s[|s| - |t|];
    }
  }

  /** Text without white space at either end is left as it is. */
  lemma TrimmedIsFixed(s: string)
    requires IsTrimmed(s)
    ensures Trim(s) == s
  {
  }

  lemma TrimIdempotent(s: string)
    ensures Trim(Trim(s)) == Trim(s)
  {
    TrimSpec(s);
    TrimmedIsFixed(Trim(s));
  }

  /** Trimming keeps only characters of the input. */
  lemma TrimNoneIn(s: string, cs: set<char>)
    requires NoneIn(s, cs)
    ensures NoneIn(Trim(s), cs)
  {
    var r := Trim(s);
    var i := |s| - |TrimStart(s)|;
    TrimSpec(s);
    assert s[i..i + |r|] == r;
    forall k | 0 <= k < |r| ensures r[k] !in cs {
      assert r[k] == s[i..i + |r|][k] == s[i + k];
    }
  }

  lemma TrimInfix(s: string)
    ensures IsInfix(Trim(s), s)
  {
    TrimSpec(s);
    assert IsInfixAt(Trim(s), s, |s| - |TrimStart(s)|);
  }

  lemma InfixAtCompose(t: string, u: string, s: string, i: int, j: int)
    requires IsInfixAt(t, u, i) && IsInfixAt(u, s, j)
    ensures IsInfixAt(t, s, j + i)
  {
    forall k | 0 <= k < |t| ensures s[j + i + k] == t[k] {
      assert t[k] == u[i..i + |t|][k] == u[i + k];
      assert u[i + k] == s[j..j + |u|][i + k];
    }
    assert s[j + i..j + i + |t|] == t;
  }

  lemma InfixTransitive(t: string, u: string, s: string)
    requires IsInfix(t, u) && IsInfix(u, s)
    ensures IsInfix(t, s)
  {
    var i :| IsInfixAt(t, u, i);
    var j :| IsInfixAt(u, s, j);
    InfixAtCompose(t, u, s, i, j);
  }

  /** Index of the first character of `s` that is in `cs`, or `|s|`. */
  function FirstIn(s: string, cs: set<char>): (i: nat)
    ensures i <= |s|
    ensures NoneIn(s[..i], cs)
    ensures i < |s| ==> s[i] in cs
  {
    if s == [] then 0
    else if s[0] in cs then 0
    else
      var j := 1 + FirstIn(s[1..], cs);
      assert s[..j] == [s[0]] + s[1..][..j - 1];
      j
  }

  /** Length of the run of characters of `cs` that `s` starts with. */
  function SpanIn(s: string, cs: set<char>): (n: nat)
    ensures n <= |s|
    ensures forall k :: 0 <= k < n ==> s[k] in cs
    ensures n < |s| ==> s[n] !in cs
  {
    if s != [] && s[0] in cs then 1 + SpanIn(s[1..], cs) else 0
  }

  /** `s.split(/[cs]/)`: the pieces between single separator characters,
      empty pieces included. */
  function Split(s: string, cs: set<char>): (pieces: seq<string>)
    ensures |pieces| >= 1
    ensures forall k :: 0 <= k < |pieces| ==> NoneIn(pieces[k], cs)
    decreases |s|
  {
    var i := FirstIn(s, cs);
    if i == |s| then
      assert s[..i] == s;
      [s]
    else
      [s[..i]] + Split(s[i + 1..], cs)
  }

  /** `s.split(/[cs]+/)`: the pieces between maximal runs of separator
      characters. A run at either end still yields one empty piece there,
      as in JavaScript. */
  function SplitRuns(s: string, cs: set<char>): (pieces: seq<string>)
    ensures |pieces| >= 1
    ensures forall k :: 0 <= k < |pieces| ==> NoneIn(pieces[k], cs)
    decreases |s|
  {
    var i := FirstIn(s, cs);
    if i == |s| then
      assert s[..i] == s;
      [s]
    else
      var n := SpanIn(s[i..], cs);
      [s[..i]] + SplitRuns(s[i + n..], cs)
  }

  /** What follows the first run of separators in `s`. */
  function AfterFirstRun(s: string, cs: set<char>): string
    requires FirstIn(s, cs) < |s|
  {
    var i := FirstIn(s, cs);
    s[i + SpanIn(s[i..], cs)..]
  }

  /** One step of `SplitRuns`: the first piece, then the pieces of what
      follows the first run of separators, which is itself part of `s`. */
  lemma SplitRunsStep(s: string, cs: set<char>)
    requires FirstIn(s, cs) < |s|
    ensures |AfterFirstRun(s, cs)| < |s|
    ensures SplitRuns(s, cs) == [s[..FirstIn(s, cs)]] + SplitRuns(AfterFirstRun(s, cs), cs)
    ensures IsInfixAt(AfterFirstRun(s, cs), s, |s| - |AfterFirstRun(s, cs)|)
  {
  }

  /** Every piece of `SplitRuns(s, cs)` is a contiguous part of `s`; the
      result is where it starts. */
  lemma {:induction false} SplitRunsPieceAt(s: string, cs: set<char>, k: nat) returns (j: int)
    requires k < |SplitRuns(s, cs)|
    ensures IsInfixAt(SplitRuns(s, cs)[k], s, j)
    decreases |s|
  {
    if FirstIn(s, cs) == |s| {
      SplitRunsWhole(s, cs);
      j := 0;
    } else if k == 0 {
      SplitRunsFirst(s, cs);
      j := 0;
    } else {
      var rest := AfterFirstRun(s, cs);
      SplitRunsStep(s, cs);
      ConsIndex(s[..FirstIn(s, cs)], SplitRuns(rest, cs), SplitRuns(s, cs), k);
      var j' := SplitRunsPieceAt(rest, cs, k - 1);
      j := PieceInSuffix(s, rest, SplitRuns(rest, cs)[k - 1], j');
    }
  }

  /** A part of a suffix of `s` is a part of `s`. */
  lemma PieceInSuffix(s: string, rest: string, piece: string, j': int) returns (j: int)
    requires IsInfixAt(rest, s, |s| - |rest|) && IsInfixAt(piece, rest, j')
    ensures IsInfixAt(piece, s, j)
  {
    InfixAtCompose(piece, rest, s, j', |s| - |rest|);
    j := |s| - |rest| + j';
  }

  /** Indexing past the head of a sequence built by consing. */
  lemma ConsIndex<T>(x: T, ys: seq<T>, zs: seq<T>, k: nat)
    requires zs == [x] + ys && 0 < k < |zs|
    ensures k - 1 < |ys| && zs[k] == ys[k - 1]
  {
  }

  lemma SplitRunsWhole(s: string, cs: set<char>)
    requires FirstIn(s, cs) == |s|
    ensures SplitRuns(s, cs) == [s] && IsInfixAt(s, s, 0)
  {
    assert s[..|s|] == s;
    assert s[0..|s|] == s;
  }

  lemma SplitRunsFirst(s: string, cs: set<char>)
    requires FirstIn(s, cs) < |s|
    ensures IsInfixAt(SplitRuns(s, cs)[0], s, 0)
  {
    SplitRunsStep(s, cs);
    assert s[0..FirstIn(s, cs)] == s[..FirstIn(s, cs)];
  }

  lemma SplitRunsPieceIsInfix(s: string, cs: set<char>, k: nat)
    requires k < |SplitRuns(s, cs)|
    ensures IsInfix(SplitRuns(s, cs)[k], s)
  {
    var j := SplitRunsPieceAt(s, cs, k);
  }

  /** Text without separators is a single piece. */
  lemma SplitRunsClean(s: string, cs: set<char>)
    requires NoneIn(s, cs)
    ensures SplitRuns(s, cs) == [s]
  {
    assert s[..|s|] == s;
  }

  lemma SpanOne(c: char, b: string, cs: set<char>)
    requires c in cs && (b == [] || b[0] !in cs)
    ensures SpanIn([c] + b, cs) == 1
  {
    assert ([c] + b)[1..] == b;
  }

  /** Two separator-free parts around one separator character split into
      exactly those two parts. */
  lemma SplitRunsOneSeparator(a: string, c: char, b: string, cs: set<char>)
    requires NoneIn(a, cs) && NoneIn(b, cs) && c in cs && b != []
    ensures SplitRuns(a + [c] + b, cs) == [a, b]
  {
    var s := a + [c] + b;
    assert s == a + ([c] + b);
    FirstInAfterClean(a, [c] + b, cs);
    SplitRunsStep(s, cs);
    assert s[|a|..] == [c] + b;
    SpanOne(c, b, cs);
    assert s[|a| + 1..] == b;
    assert s[..|a|] == a;
    SplitRunsClean(b, cs);
  }

  /** `xs.join(sep)`. */
  function Join(xs: seq<string>, sep: string): string
  {
    if xs == [] then ""
    else if |xs| == 1 then xs[0]
    else xs[0] + sep + Join(xs[1..], sep)
  }

  lemma FirstInAfterClean(a: string, b: string, cs: set<char>)
    requires NoneIn(a, cs)
    requires b != [] && b[0] in cs
    ensures FirstIn(a + b, cs) == |a|
  {
    var s := a + b;
    var i := FirstIn(s, cs);
    assert forall k :: 0 <= k < i ==> s[..i][k] == s[k];
    assert s[|a|] == b[0];
    assert forall k :: 0 <= k < |a| ==> s[k] == a[k];
  }

  /** Joining separator-free pieces with one separator character and
      splitting again gives the pieces back. */
  lemma {:induction false} SplitJoin(xs: seq<string>, c: char, cs: set<char>)
    requires |xs| >= 1
    requires c in cs
    requires forall k :: 0 <= k < |xs| ==> NoneIn(xs[k], cs)
    ensures Split(Join(xs, [c]), cs) == xs
    decreases |xs|
  {
    if |xs| == 1 {
      SplitClean(xs[0], cs);
    } else {
      var rest := Join(xs[1..], [c]);
      assert Join(xs, [c]) == xs[0] + [c] + rest;
      SplitCons(xs[0], c, rest, cs);
      SplitJoin(xs[1..], c, cs);
      assert xs == [xs[0]] + xs[1..];
    }
  }

  /** Text without separators is a single piece. */
  lemma SplitClean(s: string, cs: set<char>)
    requires NoneIn(s, cs)
    ensures Split(s, cs) == [s]
  {
    assert s[..|s|] == s;
    assert FirstIn(s, cs) == |s|;
  }

  /** A separator-free part followed by one separator splits off as the
      first piece. */
  lemma SplitCons(a: string, c: char, rest: string, cs: set<char>)
    requires NoneIn(a, cs) && c in cs
    ensures Split(a + [c] + rest, cs) == [a] + Split(rest, cs)
  {
    var s := a + [c] + rest;
    assert s == a + ([c] + rest);
    FirstInAfterClean(a, [c] + rest, cs);
    assert s[..|a|] == a;
    assert s[|a| + 1..] == rest;
  }

  predicate StartsWith(s: string, prefix: string) {
    |prefix| <= |s| && s[..|prefix|] == prefix
  }

  /** `s.includes(t)`. */
  function Includes(s: string, t: string): bool
    decreases |s|
  {
    if |s| < |t| then false
    else s[..|t|] == t || Includes(s[1..], t)
  }

  lemma StartsWithIncludes(s: string, t: string)
    requires StartsWith(s, t)
    ensures Includes(s, t)
  {
  }

  /** A string lacking some character of `t` cannot contain `t`. */
  lemma {:induction false} MissingCharExcludes(s: string, t: string, c: char)
    requires c in t && c !in s
    ensures !Includes(s, t)
    decreases |s|
  {
    if |s| >= |t| {
      var k :| 0 <= k < |t| && t[k] == c;
      assert s[..|t|][k] == s[k] != c;
      MissingCharExcludes(s[1..], t, c);
    }
  }

  function LowerChar(c: char): char {
    if 'A' <= c <= 'Z' then (c as int + 32) as char else c
  }

  /** `toLowerCase` on the ASCII letters. */
  function ToLower(s: string): (r: string)
    ensures |r| == |s|
    ensures forall k :: 0 <= k < |s| ==> r[k] == LowerChar(s[k])
  {
    seq(|s|, k requires 0 <= k < |s| => LowerChar(s[k]))
  }

  /** The UTF-16 code units of one character: two (a surrogate pair)
      above U+FFFF, one otherwise. */
  function CodeUnits(c: char): nat {
    if c as int >= 0x1_0000 then 2 else 1
  }

  /** JavaScript's `length`: the number of UTF-16 code units, so a
      character above U+FFFF counts twice. */
  function Utf16Length(s: string): (n: nat)
    ensures |s| <= n <= 2 * |s|
    ensures n == 0 <==> s == []
  {
    if s == [] then 0 else CodeUnits(s[0]) + Utf16Length(s[1..])
  }

  /** Below U+10000 every character is one code unit, so `length` is the
      number of characters. */
  lemma {:induction false} Utf16LengthBmp(s: string)
    requires forall k :: 0 <= k < |s| ==> s[k] as int < 0x1_0000
    ensures Utf16Length(s) == |s|
  {
    if s != [] {
      Utf16LengthBmp(s[1..]);
    }
  }

  /** Three characters above U+FFFF make a string of `length` 6. */
  lemma Utf16LengthAstral()
    ensures Utf16Length("\U{1F600}\U{1F600}\U{1F600}") == 6
  {
    var s := "\U{1F600}\U{1F600}\U{1F600}";
    assert s[1..][1..][1..] == [];
  }

  function Repeat(c: char, n: nat): (r: string)
    ensures |r| == n
    ensures forall k :: 0 <= k < n ==> r[k] == c
  {
    seq(n, _ => c)
  }

  function DigitChar(d: nat): char
    requires d < 10
  {
    "0123456789"[d]
  }

  /** Decimal rendering of a natural number, as in `${n}`. */
  function NatToString(n: nat): (r: string)
    ensures r != []
    ensures forall k :: 0 <= k < |r| ==> '0' <= r[k] <= '9'
  {
    if n < 10 then [DigitChar(n)] else NatToString(n / 10) + [DigitChar(n % 10)]
  }

  function IntToString(i: int): (r: string)
    ensures forall k :: 0 <= k < |r| ==> r[k] == '-' || '0' <= r[k] <= '9'
  {
    if i < 0 then "-" + NatToString(-i) else NatToString(i)
  }
}
