/**
 * The JavaScript string operations the pipeline relies on (`trim`, `toLowerCase`,
 * `includes`, `endsWith`, `replace` with a string pattern, `split` on a character and
 * `split` on a regular expression of the form `[...]+`), over strings as character
 * sequences.
 */
module JsStrings {
  import opened Wrappers

  /** The characters that `trim`, the regular-expression class `\s` and
      `parseFloat` treat as white space (ECMAScript WhiteSpace and LineTerminator). */
  predicate IsSpace(c: char) {
    || c == ' ' || c == '\t' || c == '\n' || c == '\U{000B}' || c == '\U{000C}' || c == '\r'
    || c == '\U{00A0}' || c == '\U{1680}' || ('\U{2000}' <= c <= '\U{200A}')
    || c == '\U{2028}' || c == '\U{2029}' || c == '\U{202F}' || c == '\U{205F}'
    || c == '\U{3000}' || c == '\U{FEFF}'
  }

  predicate IsDigit(c: char) { '0' <= c <= '9' }

  predicate AllSatisfy(s: string, p: char -> bool) {
    forall i :: 0 <= i < |s| ==> p(s[i])
  }

  predicate NoneSatisfy(s: string, p: char -> bool) {
    forall i :: 0 <= i < |s| ==> !p(s[i])
  }

  /** `toLowerCase` / `toUpperCase` on one character (ASCII letters only). */
  function LowerChar(c: char): char {
    if 'A' <= c <= 'Z' then (c as int + 32) as char else c
  }

  function UpperChar(c: char): char {
    if 'a' <= c <= 'z' then (c as int - 32) as char else c
  }

  function ToLower(s: string): (r: string)
    ensures |r| == |s|
    ensures forall i :: 0 <= i < |s| ==> r[i] == LowerChar(s[i])
  {
    if s == [] then [] else [LowerChar(s[0])] + ToLower(s[1..])
  }

  lemma ToLowerIdempotent(s: string)
    ensures ToLower(ToLower(s)) == ToLower(s)
  {
    assert forall i :: 0 <= i < |s| ==> LowerChar(LowerChar(s[i])) == LowerChar(s[i]);
  }

  /** Length of the longest prefix of `s` whose characters all satisfy `p`. */
  function SpanLength(s: string, p: char -> bool): (n: nat)
    ensures n <= |s|
    ensures forall i :: 0 <= i < n ==> p(s[i])
    ensures n == |s| || !p(s[n])
  {
    if s != [] && p(s[0]) then 1 + SpanLength(s[1..], p) else 0
  }

  /** The span of a prefix whose characters all satisfy `p`, followed by nothing
      or by a character that does not, is that prefix. */
  lemma {:induction false} SpanLengthOfPrefix(d: string, rest: string, p: char -> bool)
    requires AllSatisfy(d, p)
    requires rest == [] || !p(rest[0])
    ensures SpanLength(d + rest, p) == |d|
  {
    if d != [] {
      assert (d + rest)[1..] == d[1..] + rest;
      SpanLengthOfPrefix(d[1..], rest, p);
    }
  }

  /** Length of the longest prefix of `s` none of whose characters satisfies `p`. */
  function SpanLengthNot(s: string, p: char -> bool): (n: nat)
    ensures n <= |s|
    ensures forall i :: 0 <= i < n ==> !p(s[i])
    ensures n == |s| || p(s[n])
  {
    if s != [] && !p(s[0]) then 1 + SpanLengthNot(s[1..], p) else 0
  }

  /** The span of a prefix none of whose characters satisfies `p`, followed by
      nothing or by a character that does, is that prefix. */
  lemma {:induction false} SpanLengthNotOfPrefix(d: string, rest: string, p: char -> bool)
    requires NoneSatisfy(d, p)
    requires rest == [] || p(rest[0])
    ensures SpanLengthNot(d + rest, p) == |d|
  {
    if d != [] {
      assert (d + rest)[1..] == d[1..] + rest;
      SpanLengthNotOfPrefix(d[1..], rest, p);
    }
  }

  /** Number of white-space characters at the end of `s`. */
  function TrailingSpaces(s: string): (n: nat)
    ensures n <= |s|
    ensures forall i :: |s| - n <= i < |s| ==> IsSpace(s[i])
    ensures n == |s| || !IsSpace(s[|s| - 1 - n])
  {
    if s != [] && IsSpace(s[|s| - 1]) then 1 + TrailingSpaces(s[..|s| - 1]) else 0
  }

  /** `s.trim()`: `s` without its leading and trailing white space. */
  function Trim(s: string): (r: string)
    ensures r == [] || (!IsSpace(r[0]) && !IsSpace(r[|r| - 1]))
    ensures r == [] <==> AllSatisfy(s, IsSpace)
    ensures OccursAt(s, r, SpanLength(s, IsSpace))
      && AllSatisfy(s[..SpanLength(s, IsSpace)], IsSpace) && AllSatisfy(s[SpanLength(s, IsSpace) + |r|..], IsSpace)
  {
    var lead := SpanLength(s, IsSpace);
    var t := s[lead..];
    var n := TrailingSpaces(t);
    var r := t[..|t| - n];
    TrimmedEnds(s, lead, n, r);
    TrimmedSurround(s, lead, n, r);
    r
  }

  /** The trimmed part starts and ends with non-space characters, and it is empty
      exactly when everything is white space. */
  lemma TrimmedEnds(s: string, lead: nat, n: nat, r: string)
    requires lead == SpanLength(s, IsSpace) && n == TrailingSpaces(s[lead..])
    requires r == s[lead..][..|s[lead..]| - n]
    ensures (r == [] || (!IsSpace(r[0]) && !IsSpace(r[|r| - 1])))
      && (r == [] <==> AllSatisfy(s, IsSpace))
  {
    var t := s[lead..];
    assert lead < |s| ==> t[0] == s[lead];
    if r != [] {
      assert r[0] == s[lead];
      assert r[|r| - 1] == t[|t| - 1 - n];
      assert !AllSatisfy(s, IsSpace);
    }
  }

  /** The trimmed part sits at `lead` in `s`, between two runs of white space. */
  lemma TrimmedSurround(s: string, lead: nat, n: nat, r: string)
    requires lead == SpanLength(s, IsSpace) && n == TrailingSpaces(s[lead..])
    requires r == s[lead..][..|s[lead..]| - n]
    ensures OccursAt(s, r, lead) && AllSatisfy(s[..lead], IsSpace) && AllSatisfy(s[lead + |r|..], IsSpace)
  {
    var t := s[lead..];
    var u := s[lead + |r|..];
    forall k | 0 <= k < |r| ensures s[lead..lead + |r|][k] == r[k] {
      assert r[k] == t[k];
    }
    assert s[lead..lead + |r|] == r;
    forall k | 0 <= k < lead ensures IsSpace(s[..lead][k]) {
    }
    forall k | 0 <= k < |u| ensures IsSpace(u[k]) {
      assert u[k] == t[|t| - n + k];
    }
  }

  /** Trimming only removes characters: a character class absent from `s` is
      absent from `Trim(s)`. */
  lemma TrimNoneSatisfy(s: string, p: char -> bool)
    requires NoneSatisfy(s, p)
    ensures NoneSatisfy(Trim(s), p)
  {
    var r := Trim(s);
    var j := SpanLength(s, IsSpace);
    forall k | 0 <= k < |r| ensures !p(r[k]) {
      assert r[k] == s[j..j + |r|][k] == s[j + k];
    }
  }

  /** A non-blank string is its own trimmed form exactly when its ends are not white space. */
  lemma TrimNoop(s: string)
    requires s != [] && !IsSpace(s[0]) && !IsSpace(s[|s| - 1])
    ensures Trim(s) == s
  {
  }

  /** `p` occurs in `s` at position `i`. */
  predicate OccursAt(s: string, p: string, i: nat) {
    i + |p| <= |s| && s[i..i + |p|] == p
  }

  /** `s.indexOf(p, from)`: the first occurrence of `p` in `s` at or after `from`. */
  function IndexOf(s: string, p: string, from: nat): (r: Option<nat>)
    ensures r.Some? ==> from <= r.value && OccursAt(s, p, r.value)
    ensures r.Some? ==> forall j :: from <= j < r.value ==> !OccursAt(s, p, j)
    ensures r.None? ==> forall j :: from <= j ==> !OccursAt(s, p, j)
    decreases |s| - from
  {
    if from + |p| > |s| then None
    else if s[from..from + |p|] == p then Some(from)
    else IndexOf(s, p, from + 1)
  }

  /** `s.includes(p)`. */
  predicate Contains(s: string, p: string) {
    IndexOf(s, p, 0).Some?
  }

  lemma ContainsIff(s: string, p: string)
    ensures Contains(s, p) <==> exists i: nat :: OccursAt(s, p, i)
  {
  }

  /** `s.endsWith(suffix)`. */
  predicate EndsWith(s: string, suffix: string) {
    |suffix| <= |s| && s[|s| - |suffix|..] == suffix
  }

  /** `endsWith(suffix)` holds exactly when the string is something followed by `suffix`. */
  lemma EndsWithIff(s: string, suffix: string)
    ensures EndsWith(s, suffix) <==> exists p :: p + suffix == s
  {
    if EndsWith(s, suffix) {
      var p := s[..|s| - |suffix|];
      assert p + suffix == s;
    }
    if exists p :: p + suffix == s {
      var p :| p + suffix == s;
      assert s[|p|..] == suffix;
    }
  }

  /** `s.replace(pat, rep)` with a string pattern: only the first occurrence is replaced. */
  function ReplaceFirst(s: string, pat: string, rep: string): (r: string)
    ensures IndexOf(s, pat, 0).None? ==> r == s
    ensures IndexOf(s, pat, 0).Some? ==>
      var i := IndexOf(s, pat, 0).value; r == s[..i] + rep + s[i + |pat|..]
  {
    match IndexOf(s, pat, 0)
    case None => s
    case Some(i) => s[..i] + rep + s[i + |pat|..]
  }

  /** A JavaScript truthiness test of an optional string (an unset variable is `None`). */
  predicate Truthy(v: Option<string>) { v.Some? && v.value != [] }

  /** Replacing the first `www.` removes a leading `www.`. */
  lemma ReplaceLeadingWww(rest: string)
    ensures ReplaceFirst("www." + rest, "www.", "") == rest
  {
    assert OccursAt("www." + rest, "www.", 0);
  }

  /** `s.split(sep)` for a one-character separator. */
  function SplitOn(s: string, sep: char): (r: seq<string>)
    ensures |r| >= 1
    ensures forall k, i :: 0 <= k < |r| && 0 <= i < |r[k]| ==> r[k][i] != sep
  {
    if s == [] then [[]]
    else
      var rest := SplitOn(s[1..], sep);
      if s[0] == sep then [[]] + rest else [[s[0]] + rest[0]] + rest[1..]
  }

  /** `parts.join(sep)`. */
  function JoinWith(parts: seq<string>, sep: char): string {
    if parts == [] then []
    else if |parts| == 1 then parts[0]
    else parts[0] + [sep] + JoinWith(parts[1..], sep)
  }

  /** Splitting then joining gives back the original string. */
  lemma {:induction false} JoinSplit(s: string, sep: char)
    ensures JoinWith(SplitOn(s, sep), sep) == s
  {
    if s != [] {
      JoinSplit(s[1..], sep);
      var rest := SplitOn(s[1..], sep);
      if s[0] == sep {
        assert SplitOn(s, sep) == [[]] + rest;
        assert [] + [sep] + JoinWith(rest, sep) == [s[0]] + s[1..];
      } else {
        var r := [[s[0]] + rest[0]] + rest[1..];
        if |rest| == 1 {
          assert JoinWith(r, sep) == [s[0]] + rest[0];
        } else {
          assert rest == [rest[0]] + rest[1..];
          assert JoinWith(rest, sep) == rest[0] + [sep] + JoinWith(rest[1..], sep);
          assert JoinWith(r, sep) == [s[0]] + rest[0] + [sep] + JoinWith(rest[1..], sep);
        }
        assert s == [s[0]] + s[1..];
      }
    }
  }

  lemma {:induction false} SplitPieceThenSep(x: string, rest: string, sep: char)
    requires sep !in x
    ensures SplitOn(x + [sep] + rest, sep) == [x] + SplitOn(rest, sep)
  {
    if x == [] {
      assert ([] + [sep] + rest)[1..] == rest;
    } else {
      SplitPieceThenSep(x[1..], rest, sep);
      assert (x + [sep] + rest)[1..] == x[1..] + [sep] + rest;
      assert [x[0]] + x[1..] == x;
    }
  }

  lemma {:induction false} SplitPiece(x: string, sep: char)
    requires sep !in x
    ensures SplitOn(x, sep) == [x]
  {
    if x != [] {
      SplitPiece(x[1..], sep);
      assert [x[0]] + x[1..] == x;
    }
  }

  /** Joining pieces free of the separator, then splitting, gives back the pieces. */
  lemma {:induction false} SplitJoin(parts: seq<string>, sep: char)
    requires |parts| >= 1
    requires forall k :: 0 <= k < |parts| ==> sep !in parts[k]
    ensures SplitOn(JoinWith(parts, sep), sep) == parts
  {
    if |parts| == 1 {
      SplitPiece(parts[0], sep);
    } else {
      SplitJoin(parts[1..], sep);
      SplitPieceThenSep(parts[0], JoinWith(parts[1..], sep), sep);
      assert parts == [parts[0]] + parts[1..];
    }
  }

  /** `s.split(/[...]+/)`: the pieces of `s` between maximal runs of separator
      characters, including an empty piece before a leading run and after a
      trailing one. */
  function SplitRuns(s: string, isSep: char -> bool): (r: seq<string>)
    ensures |r| >= 1
    ensures forall k :: 0 <= k < |r| ==> NoneSatisfy(r[k], isSep)
    decreases |s|
  {
    var n := SpanLengthNot(s, isSep);
    if n == |s| then [s]
    else
      var m := SpanLength(s[n..], isSep);
      [s[..n]] + SplitRuns(s[n + m..], isSep)
  }

  /** `s` with every character satisfying `drop` removed (`s.replace(/[...]/g, '')`). */
  function RemoveAll(s: string, drop: char -> bool): (r: string)
    ensures forall i :: 0 <= i < |r| ==> !drop(r[i])
  {
    if s == [] then [] else (if drop(s[0]) then [] else [s[0]]) + RemoveAll(s[1..], drop)
  }

  lemma {:induction false} RemoveAllAppend(a: string, b: string, drop: char -> bool)
    ensures RemoveAll(a + b, drop) == RemoveAll(a, drop) + RemoveAll(b, drop)
  {
    if a != [] {
      RemoveAllAppend(a[1..], b, drop);
      assert (a + b)[1..] == a[1..] + b;
    } else {
      assert a + b == b;
    }
  }

  lemma {:induction false} RemoveAllNone(a: string, drop: char -> bool)
    requires forall i :: 0 <= i < |a| ==> !drop(a[i])
    ensures RemoveAll(a, drop) == a
  {
    if a != [] {
      RemoveAllNone(a[1..], drop);
    }
  }

  lemma {:induction false} RemoveAllEvery(a: string, drop: char -> bool)
    requires forall i :: 0 <= i < |a| ==> drop(a[i])
    ensures RemoveAll(a, drop) == []
  {
    if a != [] {
      RemoveAllEvery(a[1..], drop);
    }
  }

  /** Removing only what does not satisfy `drop` leaves a string unchanged a second time. */
  lemma RemoveAllIdempotent(s: string, drop: char -> bool)
    ensures RemoveAll(RemoveAll(s, drop), drop) == RemoveAll(s, drop)
  {
    RemoveAllNone(RemoveAll(s, drop), drop);
  }

  function Concat(parts: seq<string>): string {
    if parts == [] then [] else parts[0] + Concat(parts[1..])
  }

  /** The pieces of a run-split, put back together, are the string without its separators. */
  lemma {:induction false} SplitRunsConcat(s: string, isSep: char -> bool)
    ensures Concat(SplitRuns(s, isSep)) == RemoveAll(s, isSep)
    decreases |s|
  {
    var n := SpanLengthNot(s, isSep);
    if n == |s| {
      assert SplitRuns(s, isSep) == [s];
      ConcatCons(s, []);
      RemoveAllNone(s, isSep);
    } else {
      var m := SpanLength(s[n..], isSep);
      var a, b, rest := s[..n], s[n..n + m], s[n + m..];
      SplitRunsStep(s, isSep, n, m);
      SplitRunsParts(s, isSep, n, m);
      SplitRunsConcat(rest, isSep);
      RemoveAllSplit(a, b, rest, isSep);
      ConcatCons(a, SplitRuns(rest, isSep));
    }
  }

  /** One piece of a run-split: the run before the first separator, then the
      separators after it, then the rest. */
  lemma SplitRunsStep(s: string, isSep: char -> bool, n: nat, m: nat)
    requires n == SpanLengthNot(s, isSep) < |s|
    requires m == SpanLength(s[n..], isSep)
    ensures SplitRuns(s, isSep) == [s[..n]] + SplitRuns(s[n + m..], isSep)
  {
  }

  /** Around the first separator run, `s` is a run without separators, a run of
      separators, and the rest. */
  lemma SplitRunsParts(s: string, isSep: char -> bool, n: nat, m: nat)
    requires n + m <= |s|
    requires forall i :: 0 <= i < n ==> !isSep(s[i])
    requires forall i :: 0 <= i < m ==> isSep(s[n..][i])
    ensures s == s[..n] + (s[n..n + m] + s[n + m..])
    ensures NoneSatisfy(s[..n], isSep) && AllSatisfy(s[n..n + m], isSep)
  {
    assert s == s[..n] + (s[n..n + m] + s[n + m..]);
    var a, b := s[..n], s[n..n + m];
    forall i | 0 <= i < |a| ensures !isSep(a[i]) {
      assert a[i] == s[i];
    }
    forall i | 0 <= i < |b| ensures isSep(b[i]) {
      assert b[i] == s[n..][i];
    }
  }

  lemma ConcatCons(a: string, parts: seq<string>)
    ensures Concat([a] + parts) == a + Concat(parts)
  {
    assert ([a] + parts)[1..] == parts;
  }

  lemma RemoveAllSplit(a: string, b: string, rest: string, isSep: char -> bool)
    requires NoneSatisfy(a, isSep) && AllSatisfy(b, isSep)
    ensures RemoveAll(a + (b + rest), isSep) == a + RemoveAll(rest, isSep)
  {
    RemoveAllAppend(a, b + rest, isSep);
    RemoveAllAppend(b, rest, isSep);
    RemoveAllNone(a, isSep);
    RemoveAllEvery(b, isSep);
    var r := RemoveAll(rest, isSep);
    assert RemoveAll(b + rest, isSep) == [] + r == r;
  }

  /** `ps[0] + rs[0] + ps[1] + ... + rs[n - 1] + ps[n]`: pieces with runs between them. */
  function Interleave(ps: seq<string>, rs: seq<string>): string
    requires |ps| == |rs| + 1
    decreases |rs|
  {
    if rs == [] then ps[0] else ps[0] + rs[0] + Interleave(ps[1..], rs[1..])
  }

  /** The string `Interleave(ps, rs)` splits into `ps` at the runs `rs`: the pieces
      hold no separator, the runs are non-empty and all separators, and only the
      first and the last piece may be empty (a leading or a trailing run). */
  predicate RunSplitForm(ps: seq<string>, rs: seq<string>, isSep: char -> bool) {
    && |ps| == |rs| + 1
    && (forall k :: 0 <= k < |ps| ==> NoneSatisfy(ps[k], isSep))
    && (forall k :: 0 <= k < |rs| ==> rs[k] != [] && AllSatisfy(rs[k], isSep))
    && (forall k :: 0 < k < |rs| ==> ps[k] != [])
  }

  lemma InterleaveStartsWith(ps: seq<string>, rs: seq<string>)
    requires |ps| == |rs| + 1
    ensures |ps[0]| <= |Interleave(ps, rs)| && Interleave(ps, rs)[..|ps[0]|] == ps[0]
  {
    if rs != [] {
      var rest := Interleave(ps[1..], rs[1..]);
      assert Interleave(ps, rs) == ps[0] + (rs[0] + rest);
    }
  }

  lemma {:induction false} InterleaveEndsWith(ps: seq<string>, rs: seq<string>)
    requires |ps| == |rs| + 1
    ensures var s, last := Interleave(ps, rs), ps[|ps| - 1];
      |last| <= |s| && s[|s| - |last|..] == last
    decreases |rs|
  {
    if rs != [] {
      var rest := Interleave(ps[1..], rs[1..]);
      InterleaveEndsWith(ps[1..], rs[1..]);
      assert ps[1..][|ps[1..]| - 1] == ps[|ps| - 1];
      var s := Interleave(ps, rs);
      assert s == (ps[0] + rs[0]) + rest;
      var last := ps[|ps| - 1];
      assert s[|s| - |last|..] == rest[|rest| - |last|..];
    }
  }

  lemma RunSplitFormTail(ps: seq<string>, rs: seq<string>, isSep: char -> bool)
    requires RunSplitForm(ps, rs, isSep) && rs != []
    ensures RunSplitForm(ps[1..], rs[1..], isSep)
  {
    assert forall k :: 0 <= k < |ps| - 1 ==> ps[1..][k] == ps[k + 1];
    assert forall k :: 0 <= k < |rs| - 1 ==> rs[1..][k] == rs[k + 1];
  }

  /** A separator-free piece, a run of separators, then text that does not start
      with one: the split yields the piece, then the split of that text. */
  lemma SplitRunsCons(a: string, run: string, rest: string, isSep: char -> bool)
    requires NoneSatisfy(a, isSep)
    requires run != [] && AllSatisfy(run, isSep)
    requires rest == [] || !isSep(rest[0])
    ensures SplitRuns(a + (run + rest), isSep) == [a] + SplitRuns(rest, isSep)
  {
    ConsSpans(a, run, rest, isSep);
    SplitRunsStepTo(a + (run + rest), isSep, |a|, |run|, a, rest);
  }

  lemma SplitRunsStepTo(s: string, isSep: char -> bool, n: nat, m: nat, head: string, rest: string)
    requires n == SpanLengthNot(s, isSep) < |s|
    requires m == SpanLength(s[n..], isSep)
    requires head == s[..n] && rest == s[n + m..]
    ensures SplitRuns(s, isSep) == [head] + SplitRuns(rest, isSep)
  {
    SplitRunsStep(s, isSep, n, m);
  }

  /** The spans `SplitRuns` measures on a piece, a run and the rest. */
  lemma ConsSpans(a: string, run: string, rest: string, isSep: char -> bool)
    requires NoneSatisfy(a, isSep)
    requires run != [] && AllSatisfy(run, isSep)
    requires rest == [] || !isSep(rest[0])
    ensures var s := a + (run + rest);
      && SpanLengthNot(s, isSep) == |a| < |s|
      && SpanLength(s[|a|..], isSep) == |run|
      && s[|a| + |run|..] == rest && s[..|a|] == a
  {
    var t := run + rest;
    assert t[0] == run[0];
    SpanLengthNotOfPrefix(a, t, isSep);
    assert (a + t)[|a|..] == t;
    SpanLengthOfPrefix(run, rest, isSep);
    assert (a + t)[|a| + |run|..] == rest;
  }

  /** After a run, the rest of an interleaving starts with a non-separator or is empty. */
  lemma InterleaveAfterRun(ps: seq<string>, rs: seq<string>, isSep: char -> bool)
    requires RunSplitForm(ps, rs, isSep) && rs != []
    ensures var rest := Interleave(ps[1..], rs[1..]);
      rest == [] || !isSep(rest[0])
  {
    var rest := Interleave(ps[1..], rs[1..]);
    InterleaveStartsWith(ps[1..], rs[1..]);
    if ps[1] != [] {
      assert rest[0] == ps[1][0];
    } else {
      assert |rs| == 1;
    }
  }

  /** Splitting at separator runs inverts `Interleave`: the pieces come back in
      order, one per piece, with the empty ones a leading or trailing run leaves. */
  lemma {:induction false} SplitRunsOfInterleave(ps: seq<string>, rs: seq<string>, isSep: char -> bool)
    requires RunSplitForm(ps, rs, isSep)
    ensures SplitRuns(Interleave(ps, rs), isSep) == ps
    decreases |rs|
  {
    if rs == [] {
      assert NoneSatisfy(ps[0], isSep);
    } else {
      var rest := Interleave(ps[1..], rs[1..]);
      assert Interleave(ps, rs) == ps[0] + (rs[0] + rest);
      InterleaveAfterRun(ps, rs, isSep);
      SplitRunsCons(ps[0], rs[0], rest, isSep);
      RunSplitFormTail(ps, rs, isSep);
      SplitRunsOfInterleave(ps[1..], rs[1..], isSep);
      assert ps == [ps[0]] + ps[1..];
    }
  }

  /** The character for a digit value below 16 (`Number.prototype.toString`: lower case). */
  function DigitChar(d: nat): (c: char)
    requires d < 16
  {
    if d < 10 then ('0' as int + d) as char else ('a' as int + d - 10) as char
  }

  /** `String(n)` for a natural number `n`. */
  function DecimalString(n: nat): (s: string)
    ensures |s| >= 1
    ensures forall i :: 0 <= i < |s| ==> IsDigit(s[i])
  {
    if n < 10 then [DigitChar(n)] else DecimalString(n / 10) + [DigitChar(n % 10)]
  }

  /** `String(i)` for an integer `i`. */
  function IntToString(i: int): string {
    if i < 0 then "-" + DecimalString(-i) else DecimalString(i)
  }

  /** `n.toString(16)`. */
  function HexString(n: nat): (s: string)
    ensures |s| >= 1
  {
    if n < 16 then [DigitChar(n)] else HexString(n / 16) + [DigitChar(n % 16)]
  }
}
