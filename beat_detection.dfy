/**
 * Beat derivation of `beat-detection.ts`: the ordered strategy chain aubio ->
 * ffmpeg silence detection -> fixed-tempo grid, the parsing of the two tools'
 * output, the tempo default, and the near-duplicate filter of the energy detector.
 * The tools themselves are not run: what they print is an input (`None` when the
 * tool is missing or its command fails).
 */
module BeatDetection {
  import opened Wrappers
  import opened JsStrings
  import opened JsNumbers
  import opened JsArrays

  /** The tempo assumed when none can be detected, and the span the fallback grid covers. */
  const DefaultBpm: real := 120.0
  const FallbackSeconds: real := 60.0

  /** `!isNaN(x) && x > 0`. */
  predicate IsPositive(x: Num) {
    x.PosInfinity? || (x.Finite? && x.value > 0.0)
  }

  function Finites(xs: seq<real>): (r: seq<Num>)
    ensures |r| == |xs| && forall i :: 0 <= i < |xs| ==> r[i] == Finite(xs[i])
  {
    seq(|xs|, i requires 0 <= i < |xs| => Finite(xs[i]))
  }

  // ---------------------------------------------------------------- aubio

  function ParseEach(lines: seq<string>): (r: seq<Num>)
    ensures |r| == |lines| && forall i :: 0 <= i < |lines| ==> r[i] == ParseFloat(lines[i])
  {
    seq(|lines|, i requires 0 <= i < |lines| => ParseFloat(lines[i]))
  }

  /** `.filter(beat => !isNaN(beat) && beat > 0)`: exactly the positive numbers survive. */
  function KeepPositive(xs: seq<Num>): (r: seq<Num>)
    ensures |r| <= |xs|
    ensures forall i :: 0 <= i < |r| ==> IsPositive(r[i])
  {
    FilterMembers(xs, IsPositive);
    var r := Filter(xs, IsPositive);
    assert forall i :: 0 <= i < |r| ==> r[i] in r;
    r
  }

  /** The filter keeps order: filtering a concatenation concatenates the results. */
  lemma KeepPositiveAppend(xs: seq<Num>, ys: seq<Num>)
    ensures KeepPositive(xs + ys) == KeepPositive(xs) + KeepPositive(ys)
  {
    FilterAppend(xs, ys, IsPositive);
  }

  /** A number survives the filter exactly when it is in the input and positive. */
  lemma KeepPositiveMembers(xs: seq<Num>)
    ensures forall x :: x in KeepPositive(xs) <==> x in xs && IsPositive(x)
  {
    FilterMembers(xs, IsPositive);
  }

  /** One number is kept exactly when it is positive. */
  lemma KeepPositiveSingle(x: Num)
    ensures KeepPositive([x]) == if IsPositive(x) then [x] else []
  {
    FilterSingle(x, IsPositive);
  }

  /** The lines of an aubio output: the trimmed output split at line breaks. */
  function AubioLines(stdout: string): seq<string> {
    SplitOn(Trim(stdout), '\n')
  }

  /** The beats read from the output of `aubio beat`: a number is a beat exactly
      when it is positive and some line of the trimmed output reads as it. */
  function AubioBeats(stdout: string): (beats: seq<Num>)
    ensures forall i :: 0 <= i < |beats| ==> IsPositive(beats[i])
    ensures forall x :: x in beats <==>
      IsPositive(x) && exists k :: 0 <= k < |AubioLines(stdout)| && ParseFloat(AubioLines(stdout)[k]) == x
  {
    var lines := AubioLines(stdout);
    var xs := ParseEach(lines);
    assert forall x :: x in xs <==> exists k :: 0 <= k < |lines| && ParseFloat(lines[k]) == x by {
      forall x | x in xs ensures exists k :: 0 <= k < |lines| && ParseFloat(lines[k]) == x {
        var k :| 0 <= k < |xs| && xs[k] == x;
        assert ParseFloat(lines[k]) == x;
      }
    }
    KeepPositiveMembers(xs);
    KeepPositive(xs)
  }

  predicate ValidNumerals(ns: seq<Numeral>) {
    forall k :: 0 <= k < |ns| ==> ValidNumeral(ns[k])
  }

  /** The numerals, as printed lines. */
  function NumeralLines(ns: seq<Numeral>): (r: seq<string>)
    ensures |r| == |ns| && forall i :: 0 <= i < |ns| ==> r[i] == NumeralText(ns[i])
  {
    seq(|ns|, i requires 0 <= i < |ns| => NumeralText(ns[i]))
  }

  /** The numbers the numerals denote. */
  function NumeralValues(ns: seq<Numeral>): (r: seq<Num>)
    requires ValidNumerals(ns)
    ensures |r| == |ns| && forall i :: 0 <= i < |ns| ==> r[i] == Finite(NumeralValue(ns[i]))
  {
    seq(|ns|, i requires 0 <= i < |ns| => Finite(NumeralValue(ns[i])))
  }

  /** An aubio output of one decimal numeral per line (`0.580499`) is read back as
      exactly the positive values of those numerals, in order. */
  lemma AubioBeatsOfLines(ns: seq<Numeral>)
    requires |ns| >= 1 && ValidNumerals(ns)
    ensures AubioBeats(JoinWith(NumeralLines(ns), '\n')) == KeepPositive(NumeralValues(ns))
  {
    LinesOfNumeralOutput(ns);
    ParseNumeralLines(ns);
  }

  /** Trimming and splitting a `\n`-join of numerals gives back the numerals. */
  lemma LinesOfNumeralOutput(ns: seq<Numeral>)
    requires |ns| >= 1 && ValidNumerals(ns)
    ensures AubioLines(JoinWith(NumeralLines(ns), '\n')) == NumeralLines(ns)
  {
    var lines := NumeralLines(ns);
    var out := JoinWith(lines, '\n');
    forall k | 0 <= k < |lines| ensures NumeralShaped(lines[k]) && '\n' !in lines[k] {
      NumeralTextShape(ns[k]);
      assert forall i :: 0 <= i < |lines[k]| ==> IsDigitOrDot(lines[k][i]);
    }
    JoinedNumeralsEnds(lines);
    TrimNoop(out);
    SplitJoin(lines, '\n');
  }

  lemma ParseNumeralLines(ns: seq<Numeral>)
    requires ValidNumerals(ns)
    ensures ParseEach(NumeralLines(ns)) == NumeralValues(ns)
  {
    var xs := ParseEach(NumeralLines(ns));
    forall i | 0 <= i < |ns| ensures xs[i] == Finite(NumeralValue(ns[i])) {
      ParseFloatOfNumeral(ns[i]);
    }
  }

  /** A `\n`-join of numerals begins and ends with a digit. */
  lemma {:induction false} JoinedNumeralsEnds(lines: seq<string>)
    requires |lines| >= 1
    requires forall k :: 0 <= k < |lines| ==> NumeralShaped(lines[k])
    ensures var out := JoinWith(lines, '\n'); |out| >= 1 && IsDigit(out[0]) && IsDigit(out[|out| - 1])
  {
    if |lines| > 1 {
      JoinedNumeralsEnds(lines[1..]);
      var rest := JoinWith(lines[1..], '\n');
      var out := lines[0] + ['\n'] + rest;
      assert out[0] == lines[0][0];
      assert out[|out| - 1] == rest[|rest| - 1];
    }
  }

  /** Empty aubio output yields no beats. */
  lemma AubioBeatsOfEmpty()
    ensures AubioBeats("") == []
  {
    assert SplitOn("", '\n') == [""];
    assert ParseFloat("") == NaN;
  }

  // --------------------------------------------------------------- ffmpeg

  const SilenceEndKey := "silence_end: "

  /** The capture of `/silence_end: ([\d.]+)/` when a match starts at the
      beginning of `u`. */
  function SilenceCapture(u: string): (r: Option<string>)
    ensures r.Some? ==> |SilenceEndKey| + |r.value| <= |u| && |r.value| >= 1
  {
    var k := |SilenceEndKey|;
    if OccursAt(u, SilenceEndKey, 0) && k < |u| && IsDigitOrDot(u[k]) then
      Some(u[k..k + SpanLength(u[k..], IsDigitOrDot)])
    else None
  }

  /** The captured text of every match of `/silence_end: ([\d.]+)/g` in `u`, in
      order; a search resumes after the end of the previous match. */
  function SilenceCaptures(u: string): seq<string>
    decreases |u|
  {
    if u == [] then []
    else
      match SilenceCapture(u)
      case Some(c) => [c] + SilenceCaptures(u[|SilenceEndKey| + |c|..])
      case None => SilenceCaptures(u[1..])
  }

  /** One step of the search: a match at the head is taken and the search resumes
      after it; otherwise it resumes one character on. */
  lemma SilenceCapturesUnfold(u: string)
    requires u != []
    ensures SilenceCapture(u).Some? ==>
      SilenceCaptures(u) == [SilenceCapture(u).value] + SilenceCaptures(u[|SilenceEndKey| + |SilenceCapture(u).value|..])
    ensures SilenceCapture(u).None? ==> SilenceCaptures(u) == SilenceCaptures(u[1..])
  {
  }

  lemma ParseEachSnoc(lines: seq<string>, c: string)
    ensures ParseEach(lines + [c]) == ParseEach(lines) + [ParseFloat(c)]
  {
    assert forall i :: 0 <= i < |lines| ==> (lines + [c])[i] == lines[i];
  }

  /** The silence ends named in a log, each read with `parseFloat`. */
  function SilenceEnds(text: string): seq<Num> {
    ParseEach(SilenceCaptures(text))
  }

  /** The `while ((match = silenceRegex.exec(text)) !== null)` loop. */
  method CollectSilenceEnds(text: string) returns (beats: seq<Num>)
    ensures beats == SilenceEnds(text)
  {
    beats := [];
    ghost var found: seq<string> := [];
    var rest := text;  // the text from `lastIndex` on
    while rest != []
      invariant found + SilenceCaptures(rest) == SilenceCaptures(text)
      invariant beats == ParseEach(found)
      decreases |rest|
    {
      var m := SilenceCapture(rest);
      SilenceCapturesUnfold(rest);
      if m.Some? {
        var c := m.value;
        MatchTaken(found, rest, c);
        ParseEachSnoc(found, c);
        beats := beats + [ParseFloat(c)];
        found := found + [c];
        rest := rest[|SilenceEndKey| + |c|..];
      } else {
        rest := rest[1..];
      }
    }
  }

  /** Taking the match at the head of `rest` keeps what is found, followed by what
      is still to be found, equal to the matches of the whole text. */
  lemma MatchTaken(found: seq<string>, rest: string, c: string)
    requires rest != [] && SilenceCapture(rest) == Some(c)
    ensures found + [c] + SilenceCaptures(rest[|SilenceEndKey| + |c|..]) == found + SilenceCaptures(rest)
  {
    var after := SilenceCaptures(rest[|SilenceEndKey| + |c|..]);
    assert SilenceCaptures(rest) == [c] + after;
    AppendAssoc(found, [c], after);
  }

  /** What `exec` reports for a command ending in `2>&1`: everything the program
      wrote, on either stream, arrives as stdout, and stderr is empty. */
  datatype ExecOutput = ExecOutput(stdout: string, stderr: string)

  function ExecMergingStderr(programStdout: string, programStderr: string): (r: ExecOutput)
    ensures r.stderr == []
  {
    ExecOutput(programStdout + programStderr, [])
  }

  /** The ffmpeg strategy as written: `ffmpeg ... -f null - 2>&1` writes its
      silencedetect log to stderr and nothing to stdout, and the code searches
      `stderr` of the exec result. */
  function FfmpegBeatsAsWritten(log: string): seq<Num> {
    SilenceEnds(ExecMergingStderr([], log).stderr)
  }

  /** As written, the ffmpeg strategy finds no beat whatever ffmpeg prints. */
  lemma FfmpegAsWrittenFindsNothing(log: string)
    ensures FfmpegBeatsAsWritten(log) == []
  {
  }

  /** The ffmpeg strategy as intended: the log is searched where it arrives, on stdout. */
  function FfmpegBeats(log: string): seq<Num> {
    SilenceEnds(ExecMergingStderr([], log).stdout)
  }

  /** A line of a silencedetect log: the text before the key, the silence end it
      names, and the text after, as in
      `[silencedetect @ 0x1] silence_end: 1.5 | silence_duration: 0.3`. */
  datatype SilenceLine = SilenceLine(before: string, end: Numeral, after: string)

  function LineText(l: SilenceLine): string {
    l.before + SilenceEndKey + NumeralText(l.end) + l.after
  }

  /** A line the search reads as the one silence end it names: the key occurs in
      it only where that end is named, and the text after the end does not start
      with a digit or a dot that would lengthen the number. */
  predicate WellFormedLine(l: SilenceLine) {
    && ValidNumeral(l.end)
    && (l.after == [] || !IsDigitOrDot(l.after[0]))
    && forall i: nat | i < |LineText(l)| :: OccursAt(LineText(l), SilenceEndKey, i) ==> i == |l.before|
  }

  predicate WellFormedLines(lines: seq<SilenceLine>) {
    forall k :: 0 <= k < |lines| ==> WellFormedLine(lines[k])
  }

  /** A silencedetect log: its lines, each ended by a line break. */
  function SilenceLog(lines: seq<SilenceLine>): string {
    if lines == [] then [] else LineText(lines[0]) + ("\n" + SilenceLog(lines[1..]))
  }

  /** The silence ends the lines name, in order. */
  function LineEnds(lines: seq<SilenceLine>): (r: seq<Numeral>)
    ensures |r| == |lines| && forall k :: 0 <= k < |lines| ==> r[k] == lines[k].end
  {
    seq(|lines|, k requires 0 <= k < |lines| => lines[k].end)
  }

  /** Text at no position of which a match starts is passed over by the search. */
  lemma {:induction false} SilenceCapturesSkip(a: string, t: string)
    requires forall i :: 0 <= i < |a| ==> SilenceCapture((a + t)[i..]).None?
    ensures SilenceCaptures(a + t) == SilenceCaptures(t)
    decreases |a|
  {
    var u := a + t;
    if a == [] {
      assert u == t;
    } else {
      var a', u' := a[1..], a[1..] + t;
      assert SilenceCapture(u).None? by {
        assert u[0..] == u;
      }
      SilenceCapturesUnfold(u);
      assert u[1..] == u';
      forall i | 0 <= i < |a'| ensures SilenceCapture(u'[i..]).None? {
        assert u'[i..] == u[i + 1..];
      }
      SilenceCapturesSkip(a', t);
    }
  }

  /** The key holds no line break, so a match that starts inside a line lies
      inside it: where the line has no key at `i`, no match starts at `i`. */
  lemma NoMatchWithoutKey(s: string, rest: string, i: nat)
    requires i < |s| && !OccursAt(s, SilenceEndKey, i)
    ensures SilenceCapture((s + ("\n" + rest))[i..]).None?
  {
    var u := s + ("\n" + rest);
    var k := |SilenceEndKey|;
    if i + k <= |s| {
      assert u[i..][..k] == s[i..i + k];
    } else if k <= |u| - i {
      assert u[i..][..k][|s| - i] == '\n';
      assert forall j :: 0 <= j < k ==> SilenceEndKey[j] != '\n';
    }
  }

  /** An occurrence in `s` is one in `p + s`, shifted by `|p|`. */
  lemma OccursAtShift(p: string, s: string, i: nat)
    ensures OccursAt(s, SilenceEndKey, i) ==> OccursAt(p + s, SilenceEndKey, |p| + i)
  {
    if OccursAt(s, SilenceEndKey, i) {
      assert (p + s)[|p| + i..|p| + i + |SilenceEndKey|] == s[i..i + |SilenceEndKey|];
    }
  }

  /** A well-formed line and its line break yield the silence end it names, and the
      search goes on with the rest of the log. */
  lemma SilenceCapturesOfLine(l: SilenceLine, rest: string)
    requires WellFormedLine(l)
    ensures SilenceCaptures(LineText(l) + ("\n" + rest)) == [NumeralText(l.end)] + SilenceCaptures(rest)
  {
    var d := NumeralText(l.end);
    var tail := l.after + ("\n" + rest);
    NumeralTextShape(l.end);
    TextBeforeSkipped(l, rest);
    SilenceCapturesOfKey(d, tail);
    TextAfterSkipped(l, rest);
    NewlineSkipped(rest);
  }

  /** The search passes over the text before the key. */
  lemma TextBeforeSkipped(l: SilenceLine, rest: string)
    requires WellFormedLine(l)
    ensures SilenceCaptures(LineText(l) + ("\n" + rest))
         == SilenceCaptures(SilenceEndKey + NumeralText(l.end) + (l.after + ("\n" + rest)))
  {
    var line := LineText(l);
    var u, t := line + ("\n" + rest), SilenceEndKey + NumeralText(l.end) + (l.after + ("\n" + rest));
    assert u == l.before + t;
    forall i | 0 <= i < |l.before| ensures SilenceCapture((l.before + t)[i..]).None? {
      NoMatchWithoutKey(line, rest, i);
    }
    SilenceCapturesSkip(l.before, t);
  }

  /** The search passes over the text after the silence end. */
  lemma TextAfterSkipped(l: SilenceLine, rest: string)
    requires WellFormedLine(l)
    ensures SilenceCaptures(l.after + ("\n" + rest)) == SilenceCaptures("\n" + rest)
  {
    var p := l.before + SilenceEndKey + NumeralText(l.end);
    assert LineText(l) == p + l.after;
    forall i | 0 <= i < |l.after| ensures SilenceCapture((l.after + ("\n" + rest))[i..]).None? {
      OccursAtShift(p, l.after, i);
      NoMatchWithoutKey(l.after, rest, i);
    }
    SilenceCapturesSkip(l.after, "\n" + rest);
  }

  /** A well-formed log yields the silence ends of its lines, in order. */
  lemma {:induction false} SilenceCapturesOfLog(lines: seq<SilenceLine>)
    requires WellFormedLines(lines)
    ensures SilenceCaptures(SilenceLog(lines)) == NumeralLines(LineEnds(lines))
  {
    if lines != [] {
      SilenceCapturesOfLine(lines[0], SilenceLog(lines[1..]));
      SilenceCapturesOfLog(lines[1..]);
      EndTextsUnfold(lines);
    }
  }

  lemma EndTextsUnfold(lines: seq<SilenceLine>)
    requires lines != []
    ensures NumeralLines(LineEnds(lines)) == [NumeralText(lines[0].end)] + NumeralLines(LineEnds(lines[1..]))
  {
    var r, s := NumeralLines(LineEnds(lines)), NumeralLines(LineEnds(lines[1..]));
    assert forall k :: 0 <= k < |s| ==> r[k + 1] == s[k];
  }

  /** `silence_end: d` followed by a character that cannot continue a number is
      captured as `d`, and the search resumes right after it. */
  lemma SilenceCapturesOfKey(d: string, t: string)
    requires d != [] && AllSatisfy(d, IsDigitOrDot)
    requires t != [] && !IsDigitOrDot(t[0])
    ensures SilenceCaptures(SilenceEndKey + d + t) == [d] + SilenceCaptures(t)
  {
    var log := SilenceEndKey + d + t;
    var k := |SilenceEndKey|;
    assert OccursAt(log, SilenceEndKey, 0) by {
      assert log[0..][..k] == SilenceEndKey;
    }
    assert log[k..] == d + t;
    SpanLengthOfPrefix(d, t, IsDigitOrDot);
    assert log[k..k + |d|] == d;
    assert SilenceCapture(log) == Some(d);
    SilenceCapturesUnfold(log);
    assert log[k + |d|..] == t;
  }

  /** A line break never starts a match. */
  lemma NewlineSkipped(rest: string)
    ensures SilenceCaptures("\n" + rest) == SilenceCaptures(rest)
  {
    var u := "\n" + rest;
    assert !OccursAt(u, SilenceEndKey, 0) by {
      if |SilenceEndKey| <= |u| {
        assert u[0..][..|SilenceEndKey|][0] == '\n';
      }
    }
    SilenceCapturesUnfold(u);
    assert u[1..] == rest;
  }

  /** A bare `silence_end: N` line is well formed: the key occurs in it only at
      its start. */
  lemma BareLineWellFormed(n: Numeral)
    requires ValidNumeral(n)
    ensures WellFormedLine(SilenceLine("", n, ""))
  {
    var l := SilenceLine("", n, "");
    var d := NumeralText(n);
    NumeralTextShape(n);
    assert LineText(l) == SilenceEndKey + d;
    forall i: nat | 0 < i ensures !OccursAt(LineText(l), SilenceEndKey, i) {
      var k := |SilenceEndKey|;
      if i + k <= |LineText(l)| {
        assert LineText(l)[i] != 's' by {
          if i < k {
            assert LineText(l)[i] == SilenceEndKey[i];
          } else {
            assert LineText(l)[i] == d[i - k];
          }
        }
        assert LineText(l)[i..i + k][0] != SilenceEndKey[0];
      }
    }
  }

  /** The intended ffmpeg strategy reads back every silence end of a well-formed
      log, in order. */
  lemma FfmpegBeatsOfLog(lines: seq<SilenceLine>)
    requires WellFormedLines(lines)
    ensures FfmpegBeats(SilenceLog(lines)) == NumeralValues(LineEnds(lines))
  {
    assert [] + SilenceLog(lines) == SilenceLog(lines);
    SilenceCapturesOfLog(lines);
    ParseNumeralLines(LineEnds(lines));
  }

  // ------------------------------------------------------------ heuristic

  /** `Math.ceil(x)` for a positive real. */
  function Ceil(x: real): (n: int)
    ensures n as real >= x && (n - 1) as real < x
  {
    var f := x.Floor;
    if f as real == x then f else f + 1
  }

  /** The number of steps `time = 0, interval, 2 interval, ...` that stay below `duration`. */
  function GridCount(interval: real, duration: real): nat
    requires interval > 0.0
  {
    if duration <= 0.0 then 0 else Ceil(duration / interval)
  }

  lemma GridCountThreshold(interval: real, duration: real, k: nat)
    requires interval > 0.0
    ensures k < GridCount(interval, duration) <==> k as real * interval < duration
  {
    if duration <= 0.0 {
      assert k as real * interval >= 0.0;
    } else {
      var x := duration / interval;
      DivTimes(duration, interval);
      var n := Ceil(x);
      assert GridCount(interval, duration) == n;
      ScaleCompare(k as real, x, interval, duration);
      assert k < n <==> (k as real) < x by {
        if k < n {
          assert k as real <= (n - 1) as real;
        }
      }
    }
  }

  lemma ScaleCompare(a: real, x: real, c: real, d: real)
    requires c > 0.0 && x * c == d
    ensures a * c < d <==> a < x
  {
    if a < x {
      MulStrict(a, x, c);
    } else {
      MulMono(x, a, c);
    }
  }

  lemma DivTimes(a: real, b: real)
    requires b > 0.0
    ensures (a / b) * b == a
  {
  }

  lemma MulStrict(a: real, b: real, c: real)
    requires a < b && c > 0.0
    ensures a * c < b * c
  {
  }

  lemma MulMono(a: real, b: real, c: real)
    requires a <= b && c > 0.0
    ensures a * c <= b * c
  {
  }

  lemma {:induction false} GridPrefixAt(interval: real, n: nat, k: nat)
    requires k < n
    ensures GridPrefix(interval, n)[k] == RoundTo2(StepTime(interval, k))
  {
    if k < n - 1 {
      GridPrefixAt(interval, n - 1, k);
      assert GridPrefix(interval, n)[k] == GridPrefix(interval, n - 1)[k];
    } else {
      assert k == n - 1;
      assert GridPrefix(interval, n)[k] == RoundTo2(StepTime(interval, n - 1));
    }
  }

  /** `generateHeuristicBeats(bpm, duration)` as a value: beat `k` is
      `k * 60 / bpm` rounded to two decimals, for every such time below `duration`. */
  function HeuristicBeats(bpm: real, durationSeconds: real): (beats: seq<real>)
    requires bpm > 0.0
  {
    var interval := 60.0 / bpm;
    GridPrefix(interval, GridCount(interval, durationSeconds))
  }

  /** The time after `k` steps of `time += interval` from 0. */
  function StepTime(interval: real, k: nat): real {
    if k == 0 then 0.0 else StepTime(interval, k - 1) + interval
  }

  lemma {:induction false} StepTimeIsProduct(interval: real, k: nat)
    ensures StepTime(interval, k) == k as real * interval
  {
    if k > 0 {
      StepTimeIsProduct(interval, k - 1);
      assert (k - 1) as real * interval + interval == k as real * interval;
    }
  }

  /** The first `n` grid times, each rounded to two decimals. */
  function GridPrefix(interval: real, n: nat): (r: seq<real>)
    ensures |r| == n
  {
    if n == 0 then [] else GridPrefix(interval, n - 1) + [RoundTo2(StepTime(interval, n - 1))]
  }

  /** The grid holds beat `k`, the rounded time after `k` steps of `60 / bpm`
      (that is `k * 60 / bpm`, by `StepTimeIsProduct`), for exactly the `k`
      whose time falls before `duration`. */
  lemma HeuristicBeatsShape(bpm: real, durationSeconds: real, k: nat)
    requires bpm > 0.0
    ensures var beats, interval := HeuristicBeats(bpm, durationSeconds), 60.0 / bpm;
      && (k < |beats| <==> k as real * interval < durationSeconds)
      && (k < |beats| ==> beats[k] == RoundTo2(StepTime(interval, k)))
  {
    var interval := 60.0 / bpm;
    GridCountThreshold(interval, durationSeconds, k);
    if k < GridCount(interval, durationSeconds) {
      GridPrefixAt(interval, GridCount(interval, durationSeconds), k);
    }
  }

  /** The loop of `generateHeuristicBeats`. */
  method GenerateHeuristicBeats(bpm: real, durationSeconds: real) returns (beats: seq<real>)
    requires bpm > 0.0
    ensures beats == HeuristicBeats(bpm, durationSeconds)
  {
    var interval := 60.0 / bpm;
    var n := GridCount(interval, durationSeconds);
    beats := [];
    var time := 0.0;
    ghost var k: nat := 0;
    while time < durationSeconds
      invariant time == StepTime(interval, k)
      invariant k <= n
      invariant beats == GridPrefix(interval, k)
      decreases n - k
    {
      StepTimeIsProduct(interval, k);
      GridCountThreshold(interval, durationSeconds, k);
      beats := beats + [RoundTo2(time)];
      time := time + interval;
      k := k + 1;
    }
    StepTimeIsProduct(interval, k);
    GridCountThreshold(interval, durationSeconds, k);
  }

  /** The fallback grid: 120 beats, half a second apart, from 0 to 59.5. */
  lemma DefaultGrid()
    ensures var beats := HeuristicBeats(DefaultBpm, FallbackSeconds);
      && |beats| == 120
      && (forall k :: 0 <= k < 120 ==> beats[k] == k as real / 2.0)
      && beats[0] == 0.0 && beats[119] == 59.5
  {
    var beats := HeuristicBeats(DefaultBpm, FallbackSeconds);
    assert 60.0 / DefaultBpm == 0.5;
    DefaultGridCount();
    assert beats == GridPrefix(0.5, 120);
    forall k | 0 <= k < 120 ensures beats[k] == k as real / 2.0 {
      HalfSecondBeat(k);
    }
    assert beats[119] == 119 as real / 2.0;
  }

  /** Beat `k` of the half-second grid is `k / 2`. */
  lemma HalfSecondBeat(k: nat)
    requires k < 120
    ensures GridPrefix(0.5, 120)[k] == k as real / 2.0
  {
    GridPrefixAt(0.5, 120, k);
    StepTimeIsProduct(0.5, k);
    RoundHalfStep(k);
  }

  lemma DefaultGridCount()
    ensures GridCount(0.5, FallbackSeconds) == 120
  {
    assert FallbackSeconds / 0.5 == 120.0;
  }

  /** Half-second steps are exact at two decimals. */
  lemma RoundHalfStep(k: nat)
    ensures RoundTo2(k as real * 0.5) == k as real / 2.0
  {
    var t := k as real * 0.5;
    assert t * 100.0 + 0.5 == (50 * k) as real + 0.5;
    assert (t * 100.0 + 0.5).Floor == 50 * k;
  }

  // ---------------------------------------------------------------- chain

  /** The fallback grid: 120 BPM over 60 seconds. */
  function Grid(): (beats: seq<Num>)
    ensures |beats| == 120 && forall k :: 0 <= k < 120 ==> beats[k] == Finite(k as real / 2.0)
  {
    DefaultGrid();
    Finites(HeuristicBeats(DefaultBpm, FallbackSeconds))
  }

  /** `detectBeats` as written: the aubio beats if there are any, else the beats
      of the ffmpeg strategy as written, else the 120 BPM grid over 60 seconds. A
      strategy that throws is given as `None` and falls through. */
  function BeatChain(aubioOut: Option<string>, ffmpegLog: Option<string>): (beats: seq<Num>)
    ensures |beats| > 0
  {
    var a := if aubioOut.Some? then AubioBeats(aubioOut.value) else [];
    var f := if ffmpegLog.Some? then FfmpegBeatsAsWritten(ffmpegLog.value) else [];
    if |a| > 0 then a
    else if |f| > 0 then f
    else Grid()
  }

  method DetectBeats(aubioOut: Option<string>, ffmpegLog: Option<string>) returns (beats: seq<Num>)
    ensures beats == BeatChain(aubioOut, ffmpegLog)
  {
    if aubioOut.Some? {
      beats := KeepPositive(ParseEach(SplitOn(Trim(aubioOut.value), '\n')));
      if |beats| > 0 {
        return;
      }
    }
    if ffmpegLog.Some? {
      var captured := ExecMergingStderr([], ffmpegLog.value);
      beats := CollectSilenceEnds(captured.stderr);
      if |beats| > 0 {
        return;
      }
    }
    var grid := GenerateHeuristicBeats(DefaultBpm, FallbackSeconds);
    beats := Finites(grid);
  }

  /** As written, the chain never takes the ffmpeg branch: the result is the aubio
      beats when there are any, and otherwise the 120 BPM grid. */
  lemma ChainAubioOrGrid(aubioOut: Option<string>, ffmpegLog: Option<string>)
    ensures BeatChain(aubioOut, ffmpegLog) ==
      if aubioOut.Some? && AubioBeats(aubioOut.value) != [] then AubioBeats(aubioOut.value) else Grid()
  {
    if ffmpegLog.Some? {
      FfmpegAsWrittenFindsNothing(ffmpegLog.value);
    }
  }

  /** Whenever aubio is unavailable or finds nothing, the result is the grid
      0, 0.5, ..., 59.5, whatever ffmpeg prints. */
  lemma ChainFallback(aubioOut: Option<string>, ffmpegLog: Option<string>)
    requires aubioOut.None? || AubioBeats(aubioOut.value) == []
    ensures var beats := BeatChain(aubioOut, ffmpegLog);
      && |beats| == 120 && forall k :: 0 <= k < 120 ==> beats[k] == Finite(k as real / 2.0)
  {
    ChainAubioOrGrid(aubioOut, ffmpegLog);
  }

  /** The chain as intended: the ffmpeg step reads the log where `2>&1` sends it. */
  function BeatChainIntended(aubioOut: Option<string>, ffmpegLog: Option<string>): (beats: seq<Num>)
    ensures |beats| > 0
  {
    var a := if aubioOut.Some? then AubioBeats(aubioOut.value) else [];
    var f := if ffmpegLog.Some? then FfmpegBeats(ffmpegLog.value) else [];
    if |a| > 0 then a
    else if |f| > 0 then f
    else Grid()
  }

  /** Aubio wins whenever it finds a beat, whatever ffmpeg would report, in both chains. */
  lemma ChainPrefersAubio(out: string, log1: Option<string>, log2: Option<string>)
    requires AubioBeats(out) != []
    ensures BeatChain(Some(out), log1) == BeatChain(Some(out), log2) == AubioBeats(out)
    ensures BeatChainIntended(Some(out), log1) == BeatChainIntended(Some(out), log2) == AubioBeats(out)
  {
  }

  /** In the intended chain, when aubio finds nothing, a well-formed silencedetect
      log with at least one line gives back its silence ends, in order. */
  lemma IntendedChainReadsSilence(aubioOut: Option<string>, lines: seq<SilenceLine>)
    requires aubioOut.None? || AubioBeats(aubioOut.value) == []
    requires |lines| >= 1 && WellFormedLines(lines)
    ensures BeatChainIntended(aubioOut, Some(SilenceLog(lines))) == NumeralValues(LineEnds(lines))
  {
    FfmpegBeatsOfLog(lines);
  }

  /** The numeral `1.5`, its text and its value. */
  lemma OneAndAHalf()
    ensures ValidNumeral(Numeral(1, "5"))
    ensures NumeralText(Numeral(1, "5")) == "1.5"
    ensures NumeralValue(Numeral(1, "5")) == 1.5
  {
    assert DecimalString(1) == "1";
    assert DigitsValue("5") == 5 by {
      assert "5"[..0] == [];
    }
  }

  /** The one-line log of a bare `silence_end: 1.5`. */
  lemma OneSilenceLog()
    ensures SilenceLog([SilenceLine("", Numeral(1, "5"), "")]) == "silence_end: 1.5\n"
  {
    var lines := [SilenceLine("", Numeral(1, "5"), "")];
    OneAndAHalf();
    assert SilenceLog(lines[1..]) == [];
  }

  /** The discrepancy on one input: with no aubio and the log `silence_end: 1.5`,
      the chain as written returns the grid, and the intended chain the one beat 1.5. */
  lemma SilenceLogDiscrepancy()
    ensures BeatChain(None, Some("silence_end: 1.5\n")) == Grid()
    ensures BeatChainIntended(None, Some("silence_end: 1.5\n")) == [Finite(1.5)]
  {
    var lines := [SilenceLine("", Numeral(1, "5"), "")];
    OneAndAHalf();
    BareLineWellFormed(Numeral(1, "5"));
    OneSilenceLog();
    IntendedChainReadsSilence(None, lines);
    assert NumeralValues(LineEnds(lines)) == [Finite(1.5)];
    ChainAubioOrGrid(None, Some("silence_end: 1.5\n"));
  }

  // ---------------------------------------------------------------- tempo

  /** `detectBPM`: the tempo printed by `aubio tempo` if it reads as a positive
      number, else 120 (also when the command fails, given as `None`). */
  function DetectBpm(tempoOut: Option<string>): (bpm: Num)
    ensures IsPositive(bpm)
    ensures tempoOut.Some? && IsPositive(ParseFloat(Trim(tempoOut.value))) ==> bpm == ParseFloat(Trim(tempoOut.value))
    ensures !(tempoOut.Some? && IsPositive(ParseFloat(Trim(tempoOut.value)))) ==> bpm == Finite(DefaultBpm)
  {
    if tempoOut.Some? && IsPositive(ParseFloat(Trim(tempoOut.value))) then ParseFloat(Trim(tempoOut.value))
    else Finite(DefaultBpm)
  }

  /** A printed positive tempo such as `128.21` is returned as it reads. */
  lemma DetectBpmReadsTempo(n: Numeral)
    requires ValidNumeral(n) && NumeralValue(n) > 0.0
    ensures DetectBpm(Some(NumeralText(n))) == Finite(NumeralValue(n))
  {
    var s := NumeralText(n);
    NumeralTextShape(n);
    TrimNoop(s);
    ParseFloatOfNumeral(n);
  }

  lemma DetectBpmDefault()
    ensures DetectBpm(None) == Finite(DefaultBpm)
    ensures DetectBpm(Some("")) == Finite(DefaultBpm)
  {
    assert ParseFloat("") == NaN;
  }

  // -------------------------------------------------------- near-duplicates

  /** Minimum gap, in seconds, between a beat and the raw beat before it. */
  const MinGap: real := 0.1

  /** Beat `i` survives the filter: it is the first, or more than 0.1 s after
      the raw beat before it. */
  predicate Kept(beats: seq<real>, i: nat)
    requires i < |beats|
  {
    i == 0 || beats[i] - beats[i - 1] > MinGap
  }

  /** The surviving beats among the first `n`, in order. */
  function DedupPrefix(beats: seq<real>, n: nat): (r: seq<real>)
    requires n <= |beats|
    ensures |r| <= n
  {
    if n == 0 then [] else DedupPrefix(beats, n - 1) + (if Kept(beats, n - 1) then [beats[n - 1]] else [])
  }

  function Dedup(beats: seq<real>): seq<real> {
    DedupPrefix(beats, |beats|)
  }

  /** The filtering loop at the end of `detectBeatsSimple`. */
  method DropNearDuplicates(beats: seq<real>) returns (filtered: seq<real>)
    ensures filtered == Dedup(beats)
  {
    filtered := [];
    var i := 0;
    while i < |beats|
      invariant i <= |beats|
      invariant filtered == DedupPrefix(beats, i)
    {
      if i == 0 || beats[i] - beats[i - 1] > MinGap {
        filtered := filtered + [beats[i]];
      }
      i := i + 1;
    }
  }

  /** The indices of the surviving beats among the first `n`. */
  ghost function KeptIndices(beats: seq<real>, n: nat): seq<nat>
    requires n <= |beats|
  {
    if n == 0 then [] else KeptIndices(beats, n - 1) + (if Kept(beats, n - 1) then [n - 1] else [])
  }

  lemma {:induction false} KeptIndicesShape(beats: seq<real>, n: nat)
    requires n <= |beats|
    ensures var idx, out := KeptIndices(beats, n), DedupPrefix(beats, n);
      && |idx| == |out|
      && (forall k :: 0 <= k < |idx| ==> idx[k] < n && out[k] == beats[idx[k]])
      && (forall k, l :: 0 <= k < l < |idx| ==> idx[k] < idx[l])
      && (forall i :: 0 <= i < n ==> (Kept(beats, i) <==> i in idx))
  {
    if n > 0 {
      KeptIndicesShape(beats, n - 1);
      var prev, before := KeptIndices(beats, n - 1), DedupPrefix(beats, n - 1);
      var idx, out := KeptIndices(beats, n), DedupPrefix(beats, n);
      var kept := Kept(beats, n - 1);
      assert idx == prev + (if kept then [n - 1] else []);
      assert out == before + (if kept then [beats[n - 1]] else []);
      forall k | 0 <= k < |idx| ensures idx[k] < n && out[k] == beats[idx[k]] {
        if k < |prev| {
          assert idx[k] == prev[k] && out[k] == before[k];
        }
      }
      forall i | 0 <= i < n ensures Kept(beats, i) <==> i in idx {
        if i < n - 1 {
          assert i in idx <==> i in prev;
        }
      }
    }
  }

  /** The filter selects, in order, exactly the beats that are first or more than
      0.1 s after their raw predecessor. */
  lemma DedupSelects(beats: seq<real>)
    ensures var out, idx := Dedup(beats), KeptIndices(beats, |beats|);
      && |idx| == |out|
      && (forall k :: 0 <= k < |out| ==> idx[k] < |beats| && out[k] == beats[idx[k]])
      && (forall k, l :: 0 <= k < l < |idx| ==> idx[k] < idx[l])
      && (forall i :: 0 <= i < |beats| ==> (Kept(beats, i) <==> i in idx))
  {
    KeptIndicesShape(beats, |beats|);
  }

  predicate Sorted(beats: seq<real>) {
    forall i, j :: 0 <= i <= j < |beats| ==> beats[i] <= beats[j]
  }

  /** The first beat always survives. */
  lemma {:induction false} DedupKeepsFirst(beats: seq<real>, n: nat)
    requires 1 <= n <= |beats|
    ensures |DedupPrefix(beats, n)| >= 1 && DedupPrefix(beats, n)[0] == beats[0]
  {
    if n > 1 {
      DedupKeepsFirst(beats, n - 1);
    }
  }

  /** On ascending input the survivors are more than 0.1 s apart. */
  lemma DedupGaps(beats: seq<real>)
    requires Sorted(beats)
    ensures var out := Dedup(beats); forall k :: 0 < k < |out| ==> out[k] - out[k - 1] > MinGap
  {
    var out, idx := Dedup(beats), KeptIndices(beats, |beats|);
    KeptIndicesShape(beats, |beats|);
    forall k | 0 < k < |out| ensures out[k] - out[k - 1] > MinGap {
      var i, j := idx[k - 1], idx[k];
      assert i < j;
      assert Kept(beats, j) by { assert j in idx; }
      assert beats[i] <= beats[j - 1];
    }
  }

  /** On ascending input, filtering a second time changes nothing. */
  lemma DedupIdempotent(beats: seq<real>)
    requires Sorted(beats)
    ensures Dedup(Dedup(beats)) == Dedup(beats)
  {
    var out := Dedup(beats);
    DedupGaps(beats);
    AllKept(out, |out|);
  }

  lemma {:induction false} AllKept(xs: seq<real>, n: nat)
    requires n <= |xs|
    requires forall k :: 0 < k < |xs| ==> xs[k] - xs[k - 1] > MinGap
    ensures DedupPrefix(xs, n) == xs[..n]
  {
    if n > 0 {
      AllKept(xs, n - 1);
      assert xs[..n] == xs[..n - 1] + [xs[n - 1]];
    }
  }
}
