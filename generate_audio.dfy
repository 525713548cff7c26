/**
 * The text logic and sequencing of `generate-audio.ts`: the music prompt table,
 * the narration timecodes, the API-key and group-id guards of the two MiniMax
 * calls, and the order music -> narration -> beats. MiniMax, the download and
 * the clock are inputs: `post` answers a request with its `audio_url` (`None`
 * when the request throws), `download` says whether fetching and saving a URL
 * succeeds.
 */
module GenerateAudio {
  import opened Wrappers
  import opened JsStrings
  import opened JsNumbers
  import opened JsArrays
  import opened BeatDetection

  // ---------------------------------------------------------------- prompt

  const LoFiPrompt := "lo-fi chill beats, mellow and relaxing, study music vibe"

  const StylePrompts: map<string, string> := map[
    "pop" := "upbeat pop instrumental background music, catchy melody, energetic",
    "hip-hop" := "hip-hop instrumental beat, rhythmic drums, bass-heavy, modern",
    "rap" := "rap instrumental beat, strong drums, urban vibe, no vocals",
    "jazz" := "smooth jazz instrumental, piano and saxophone, sophisticated",
    "lo-fi" := LoFiPrompt,
    "ambient" := "ambient atmospheric background music, ethereal and calming",
    "cinematic" := "cinematic orchestral instrumental, dramatic and epic",
    "rock" := "rock instrumental background, electric guitar driven, energetic"
  ]

  /** The instruction appended to every prompt. */
  function PromptSuffix(duration: int): string {
    ", instrumental only, no singing, no vocals, no lyrics, " + IntToString(duration) + " seconds"
  }

  /** `stylePrompts[style.toLowerCase()] || stylePrompts['lo-fi']`; every table entry is non-empty. */
  function BasePrompt(style: string): (p: string)
    ensures |p| > 0
    ensures ToLower(style) in StylePrompts ==> p == StylePrompts[ToLower(style)]
    ensures ToLower(style) !in StylePrompts ==> p == LoFiPrompt
  {
    var key := ToLower(style);
    if key in StylePrompts && StylePrompts[key] != "" then StylePrompts[key] else StylePrompts["lo-fi"]
  }

  function CreateMusicPrompt(style: string, duration: int): string {
    BasePrompt(style) + PromptSuffix(duration)
  }

  /** Every prompt ends by forbidding vocals and naming the duration. */
  lemma PromptEndsWithSuffix(style: string, duration: int)
    ensures EndsWith(CreateMusicPrompt(style, duration), PromptSuffix(duration))
  {
    var p := CreateMusicPrompt(style, duration);
    assert p[|p| - |PromptSuffix(duration)|..] == PromptSuffix(duration);
  }

  /** An unknown style gets the lo-fi prompt. */
  lemma UnknownStyleIsLoFi(style: string, duration: int)
    requires ToLower(style) !in StylePrompts
    ensures CreateMusicPrompt(style, duration) == LoFiPrompt + PromptSuffix(duration)
  {
  }

  /** The style is looked up case-insensitively. */
  lemma PromptIgnoresCase(style: string, duration: int)
    ensures CreateMusicPrompt(ToLower(style), duration) == CreateMusicPrompt(style, duration)
  {
    ToLowerIdempotent(style);
  }

  lemma MixedCaseStyle(duration: int)
    ensures CreateMusicPrompt("Jazz", duration)
      == "smooth jazz instrumental, piano and saxophone, sophisticated" + PromptSuffix(duration)
  {
    assert ToLower("Jazz") == "jazz";
  }

  // ------------------------------------------------------------- timecodes

  const WordsPerSecond: real := 2.5
  const SentencePause: real := 0.5

  datatype Timecode = Timecode(start: real, end: real, text: string)

  predicate IsTerminator(c: char) { c == '.' || c == '!' || c == '?' }

  /** `s => s.trim()` read as a truth value: the piece is not blank. */
  predicate HasText(piece: string) { Trim(piece) != [] }

  /** `.filter(s => s.trim())`: the pieces that are not blank, in order. */
  function NonBlank(pieces: seq<string>): seq<string> {
    Filter(pieces, HasText)
  }

  /** The sentences of a script: its non-blank pieces between runs of `.`, `!` and `?`. */
  function Sentences(script: string): seq<string> {
    NonBlank(SplitRuns(script, IsTerminator))
  }

  /** The filter keeps exactly the non-blank pieces. */
  lemma NonBlankKeeps(pieces: seq<string>)
    ensures var r := NonBlank(pieces);
      && |r| <= |pieces|
      && (forall k :: 0 <= k < |r| ==> Trim(r[k]) != [] && r[k] in pieces)
      && (forall p :: p in pieces && Trim(p) != [] ==> p in r)
  {
    FilterMembers(pieces, HasText);
    var r := NonBlank(pieces);
    forall k | 0 <= k < |r| ensures Trim(r[k]) != [] && r[k] in pieces {
      assert r[k] in r;
    }
  }

  /** Every sentence is a non-blank piece of the script, and every non-blank
      piece is a sentence; no sentence contains a terminator. */
  lemma SentencesArePieces(script: string)
    ensures var s, pieces := Sentences(script), SplitRuns(script, IsTerminator);
      && (forall k :: 0 <= k < |s| ==> s[k] in pieces && Trim(s[k]) != [])
      && (forall p :: p in pieces && Trim(p) != [] ==> p in s)
      && (forall k :: 0 <= k < |s| ==> NoneSatisfy(s[k], IsTerminator))
  {
    var pieces := SplitRuns(script, IsTerminator);
    NonBlankKeeps(pieces);
    var s := Sentences(script);
    forall k | 0 <= k < |s| ensures NoneSatisfy(s[k], IsTerminator) {
      var j :| 0 <= j < |pieces| && pieces[j] == s[k];
    }
  }

  /** The filter works piece by piece, in order: filtering a concatenation
      concatenates the results. */
  lemma NonBlankAppend(xs: seq<string>, ys: seq<string>)
    ensures NonBlank(xs + ys) == NonBlank(xs) + NonBlank(ys)
  {
    FilterAppend(xs, ys, HasText);
  }

  /** One piece is kept exactly when it is not blank. */
  lemma NonBlankSingle(p: string)
    ensures NonBlank([p]) == if Trim(p) != [] then [p] else []
  {
    FilterSingle(p, HasText);
  }

  /** A script made of pieces between runs of terminators has as sentences
      exactly its non-blank pieces, in script order, one per piece. */
  lemma SentencesOfScript(ps: seq<string>, rs: seq<string>)
    requires RunSplitForm(ps, rs, IsTerminator)
    ensures Sentences(Interleave(ps, rs)) == NonBlank(ps)
  {
    SplitRunsOfInterleave(ps, rs, IsTerminator);
  }

  /** A sentence made of words separated by runs of white space (and nothing
      around them) measures as itself, with one word per word. */
  lemma MeasureOfWords(ws: seq<string>, rs: seq<string>)
    requires RunSplitForm(ws, rs, IsSpace)
    requires forall k :: 0 <= k < |ws| ==> ws[k] != []
    ensures Measure(Interleave(ws, rs)) == Phrase(Interleave(ws, rs), |ws|)
  {
    var s := Interleave(ws, rs);
    var last := ws[|ws| - 1];
    InterleaveStartsWith(ws, rs);
    InterleaveEndsWith(ws, rs);
    assert s[0] == ws[0][0] by {
      assert s[..|ws[0]|][0] == s[0];
    }
    assert s[|s| - 1] == last[|last| - 1] by {
      assert s[|s| - |last|..][|last| - 1] == s[|s| - 1];
    }
    assert NoneSatisfy(ws[0], IsSpace) && NoneSatisfy(last, IsSpace);
    TrimNoop(s);
    SplitRunsOfInterleave(ws, rs, IsSpace);
  }

  /** A sentence as the timing loop sees it: its trimmed text and its word count. */
  datatype Phrase = Phrase(text: string, words: nat)

  /** `sentence.trim()` and `sentence.trim().split(/\s+/).length`; the count is at least 1. */
  function Measure(sentence: string): (p: Phrase)
    ensures p.text == Trim(sentence) && p.words == |SplitRuns(Trim(sentence), IsSpace)| && p.words >= 1
  {
    var text := Trim(sentence);
    Phrase(text, |SplitRuns(text, IsSpace)|)
  }

  function MeasureAll(sentences: seq<string>): (r: seq<Phrase>)
    ensures |r| == |sentences| && forall k :: 0 <= k < |r| ==> r[k] == Measure(sentences[k])
  {
    seq(|sentences|, k requires 0 <= k < |sentences| => Measure(sentences[k]))
  }

  /** Every phrase has at least one word. */
  predicate Spoken(phrases: seq<Phrase>) {
    forall k :: 0 <= k < |phrases| ==> phrases[k].words >= 1
  }

  /** The segments for `phrases` when the first starts at `t`: each lasts its
      word count at 2.5 words per second and is followed by a 0.5 s pause. */
  function SegmentsFrom(phrases: seq<Phrase>, t: real): seq<Timecode> {
    if phrases == [] then []
    else
      var d := phrases[0].words as real / WordsPerSecond;
      [Timecode(t, t + d, phrases[0].text)] + SegmentsFrom(phrases[1..], t + d + SentencePause)
  }

  function Timecodes(script: string): seq<Timecode> {
    SegmentsFrom(MeasureAll(Sentences(script)), 0.0)
  }

  /** `createNarrationTimecodes`: split into sentences, drop the blank ones,
      trim and count the words of each, then run the timing loop. */
  method CreateNarrationTimecodes(script: string) returns (timecodes: seq<Timecode>)
    ensures timecodes == Timecodes(script)
  {
    var sentences := Sentences(script);
    timecodes := TimePhrases(MeasureAll(sentences));
  }

  /** The loop of `createNarrationTimecodes`: each sentence's segment starts at
      the running time, which then advances by its duration and the pause. */
  method TimePhrases(phrases: seq<Phrase>) returns (timecodes: seq<Timecode>)
    ensures timecodes == SegmentsFrom(phrases, 0.0)
  {
    timecodes := [];
    var currentTime := 0.0;
    for i := 0 to |phrases|
      invariant timecodes + SegmentsFrom(phrases[i..], currentTime) == SegmentsFrom(phrases, 0.0)
    {
      var durationSeconds := phrases[i].words as real / WordsPerSecond;
      SegmentsStep(phrases, i, currentTime, phrases[i]);
      var segment := Timecode(currentTime, currentTime + durationSeconds, phrases[i].text);
      AppendAssoc(timecodes, [segment], SegmentsFrom(phrases[i + 1..], currentTime + durationSeconds + SentencePause));
      timecodes := timecodes + [segment];
      currentTime := currentTime + durationSeconds + SentencePause;
    }
    assert phrases[|phrases|..] == [];
  }

  /** Unfolding the segments of `phrases[i..]` once. */
  lemma SegmentsStep(phrases: seq<Phrase>, i: nat, t: real, p: Phrase)
    requires i < |phrases| && phrases[i] == p
    ensures SegmentsFrom(phrases[i..], t)
      == [Timecode(t, t + p.words as real / WordsPerSecond, p.text)]
         + SegmentsFrom(phrases[i + 1..], t + p.words as real / WordsPerSecond + SentencePause)
  {
    assert phrases[i..][1..] == phrases[i + 1..];
  }

  /** Segment `i` carries phrase `i`'s text and lasts its word count / 2.5. */
  predicate Carries(r: seq<Timecode>, phrases: seq<Phrase>) {
    && |r| == |phrases|
    && forall i :: 0 <= i < |r| ==>
         r[i].text == phrases[i].text && r[i].end - r[i].start == phrases[i].words as real / 2.5
  }

  /** Each segment starts 0.5 s after the previous one ends. */
  predicate Paced(r: seq<Timecode>) {
    forall i :: 0 <= i < |r| - 1 ==> r[i + 1].start == r[i].end + 0.5
  }

  /** Every segment has positive length and ends before any later one starts. */
  predicate Disjoint(r: seq<Timecode>) {
    && (forall i :: 0 <= i < |r| ==> r[i].start < r[i].end)
    && (forall i, j :: 0 <= i < j < |r| ==> r[i].end < r[j].start)
  }

  /** One segment per phrase, in order, carrying its text and lasting its word
      count / 2.5; the first starts at `t` and each next one 0.5 s after the
      previous one ends. */
  lemma {:induction false} SegmentsShape(phrases: seq<Phrase>, t: real)
    ensures Carries(SegmentsFrom(phrases, t), phrases)
    ensures phrases != [] ==> SegmentsFrom(phrases, t)[0].start == t
    ensures Paced(SegmentsFrom(phrases, t))
  {
    if phrases != [] {
      var d := phrases[0].words as real / WordsPerSecond;
      var t' := t + d + SentencePause;
      SegmentsShape(phrases[1..], t');
      var r := SegmentsFrom(phrases, t);
      var rest := SegmentsFrom(phrases[1..], t');
      assert r == [Timecode(t, t + d, phrases[0].text)] + rest;
      forall i | 0 <= i < |r|
        ensures r[i].text == phrases[i].text && r[i].end - r[i].start == phrases[i].words as real / 2.5
      {
        if i > 0 {
          assert r[i] == rest[i - 1] && phrases[i] == phrases[1..][i - 1];
        }
      }
      forall i | 0 <= i < |r| - 1 ensures r[i + 1].start == r[i].end + 0.5 {
        if i > 0 {
          assert r[i] == rest[i - 1] && r[i + 1] == rest[i];
        }
      }
    }
  }

  /** No segment starts before `t`. */
  lemma {:induction false} SegmentsStartFrom(phrases: seq<Phrase>, t: real)
    ensures forall i :: 0 <= i < |SegmentsFrom(phrases, t)| ==> SegmentsFrom(phrases, t)[i].start >= t
  {
    if phrases != [] {
      var d := phrases[0].words as real / WordsPerSecond;
      SegmentsStartFrom(phrases[1..], t + d + SentencePause);
    }
  }

  /** Segments of spoken phrases never overlap. */
  lemma {:induction false} SegmentsDisjoint(phrases: seq<Phrase>, t: real)
    requires Spoken(phrases)
    ensures Disjoint(SegmentsFrom(phrases, t))
  {
    if phrases != [] {
      var d := phrases[0].words as real / WordsPerSecond;
      var t' := t + d + SentencePause;
      assert Spoken(phrases[1..]) by {
        forall k | 0 <= k < |phrases[1..]| ensures phrases[1..][k].words >= 1 {
          assert phrases[1..][k] == phrases[k + 1];
        }
      }
      SegmentsDisjoint(phrases[1..], t');
      SegmentsStartFrom(phrases[1..], t');
      var r := SegmentsFrom(phrases, t);
      var rest := SegmentsFrom(phrases[1..], t');
      assert r == [Timecode(t, t + d, phrases[0].text)] + rest;
      assert phrases[0].words >= 1;
      forall i | 0 <= i < |r| ensures r[i].start < r[i].end {
        if i > 0 {
          assert r[i] == rest[i - 1];
        }
      }
      forall i, j | 0 <= i < j < |r| ensures r[i].end < r[j].start {
        assert r[j] == rest[j - 1];
        if i > 0 {
          assert r[i] == rest[i - 1];
        }
      }
    }
  }

  /** The timecodes of a script: one per sentence, in order, each lasting its
      word count / 2.5; the first starts at 0, each next 0.5 s after the
      previous ends, and none overlaps another. */
  lemma TimecodesOfScript(script: string)
    ensures Carries(Timecodes(script), MeasureAll(Sentences(script)))
    ensures Timecodes(script) != [] ==> Timecodes(script)[0].start == 0.0
    ensures Paced(Timecodes(script)) && Disjoint(Timecodes(script))
  {
    var p := MeasureAll(Sentences(script));
    SegmentsShape(p, 0.0);
    SegmentsDisjoint(p, 0.0);
  }

  /** Each timecode's text is its sentence trimmed: never blank, never holding a terminator. */
  lemma TimecodeTexts(script: string, i: nat)
    requires i < |Timecodes(script)|
    ensures i < |Sentences(script)|
    ensures Timecodes(script)[i].text == Trim(Sentences(script)[i]) != []
    ensures NoneSatisfy(Timecodes(script)[i].text, IsTerminator)
  {
    var s := Sentences(script);
    var p := MeasureAll(s);
    SegmentsShape(p, 0.0);
    SentencesArePieces(script);
    assert Timecodes(script)[i].text == p[i].text == Trim(s[i]);
    TrimNoneSatisfy(s[i], IsTerminator);
  }

  /** A script with no sentence has no timecodes. */
  lemma BlankScript()
    ensures Timecodes("") == [] && Timecodes("...") == []
  {
    EmptyHasNoSentence();
    DotsHaveNoSentence();
  }

  lemma EmptyHasNoSentence()
    ensures Sentences("") == []
  {
    assert SplitRuns("", IsTerminator) == [""];
    assert AllSatisfy("", IsSpace);
    NonBlankSingle("");
  }

  lemma DotsHaveNoSentence()
    ensures Sentences("...") == []
  {
    var s := "...";
    assert SpanLengthNot(s, IsTerminator) == 0;
    assert SpanLength(s, IsTerminator) == 3 by {
      assert SpanLength(s[3..], IsTerminator) == 0;
      assert s[1..][1..] == s[2..] && s[2..][1..] == s[3..];
    }
    assert s[3..] == "";
    assert SplitRuns(s, IsTerminator) == ["", ""];
    assert AllSatisfy("", IsSpace);
    NonBlankSingle("");
    NonBlankAppend([""], [""]);
    assert [""] + [""] == ["", ""];
  }

  // ------------------------------------------------------------- requests

  const KeyMissing := "MINIMAX_API_KEY must be set"
  const RequestFailed := "MiniMax request failed"
  const DownloadFailed := "audio download failed"

  const MusicEndpoint := "https://api.minimax.chat/v1/music/generation"
  const SpeechEndpoint := "https://api.minimax.chat/v1/text_to_speech"

  /** `MINIMAX_API_KEY` and `MINIMAX_GROUP_ID`; `None` when unset. */
  datatype Env = Env(apiKey: Option<string>, groupId: Option<string>)

  datatype RequestBody =
    | MusicBody(model: string, prompt: string, duration: int, instrumental: bool)
    | SpeechBody(model: string, text: string, voiceId: string, speed: real)

  datatype ApiCall = ApiCall(endpoint: string, headers: map<string, string>, body: RequestBody)

  datatype Services = Services(post: ApiCall -> Option<string>, download: string -> bool, tmpDir: string)

  /** The request headers: the bearer token and JSON content type, plus the group id when one is set. */
  function Headers(apiKey: string, groupId: Option<string>): (h: map<string, string>)
    ensures h.Keys == {"Authorization", "Content-Type"} + (if Truthy(groupId) then {"X-Group-Id"} else {})
    ensures h["Authorization"] == "Bearer " + apiKey && h["Content-Type"] == "application/json"
    ensures Truthy(groupId) ==> h["X-Group-Id"] == groupId.value
  {
    var base := map["Authorization" := "Bearer " + apiKey, "Content-Type" := "application/json"];
    if Truthy(groupId) then base["X-Group-Id" := groupId.value] else base
  }

  /** The header dictionary as the source fills it in. */
  method BuildHeaders(apiKey: string, groupId: Option<string>) returns (headers: map<string, string>)
    ensures headers == Headers(apiKey, groupId)
  {
    headers := map[];
    headers := headers["Authorization" := "Bearer " + apiKey];
    headers := headers["Content-Type" := "application/json"];
    if groupId.Some? && groupId.value != [] {
      headers := headers["X-Group-Id" := groupId.value];
    }
  }

  function MusicCall(apiKey: string, groupId: Option<string>, style: string, duration: int): ApiCall {
    ApiCall(MusicEndpoint, Headers(apiKey, groupId), MusicBody("music-2.5", CreateMusicPrompt(style, duration), duration, true))
  }

  function SpeechCall(apiKey: string, groupId: Option<string>, script: string): ApiCall {
    ApiCall(SpeechEndpoint, Headers(apiKey, groupId), SpeechBody("speech-2.5-hd", script, "professional-neutral", 1.0))
  }

  /** Where `downloadAudio` saves a file, given the clock reading `now`. */
  function AudioFilePath(tmpDir: string, prefix: string, now: int): string {
    tmpDir + "/" + prefix + "-" + IntToString(now) + ".mp3"
  }

  datatype MusicAsset = MusicAsset(url: string, localPath: string, duration: int)
  datatype NarrationAsset = NarrationAsset(url: string, localPath: string, timecodes: seq<Timecode>)
  datatype AudioResult = AudioResult(music: MusicAsset, narration: NarrationAsset, beats: seq<Num>)

  /** `generateMusic`. */
  function MusicOutcome(style: string, duration: int, env: Env, svc: Services, now: int): Result<MusicAsset> {
    if !Truthy(env.apiKey) then Err(KeyMissing)
    else
      match svc.post(MusicCall(env.apiKey.value, env.groupId, style, duration))
      case None => Err(RequestFailed)
      case Some(url) =>
        if svc.download(url) then Ok(MusicAsset(url, AudioFilePath(svc.tmpDir, "music", now), duration))
        else Err(DownloadFailed)
  }

  /** `generateNarration`. */
  function NarrationOutcome(script: string, env: Env, svc: Services, now: int): Result<NarrationAsset> {
    if !Truthy(env.apiKey) then Err(KeyMissing)
    else
      match svc.post(SpeechCall(env.apiKey.value, env.groupId, script))
      case None => Err(RequestFailed)
      case Some(url) =>
        if svc.download(url) then Ok(NarrationAsset(url, AudioFilePath(svc.tmpDir, "narration", now), Timecodes(script)))
        else Err(DownloadFailed)
  }

  method GenerateMusic(style: string, duration: int, env: Env, svc: Services, now: int) returns (r: Result<MusicAsset>)
    ensures r == MusicOutcome(style, duration, env, svc, now)
  {
    if env.apiKey.None? || env.apiKey.value == [] {
      return Err(KeyMissing);
    }
    var prompt := CreateMusicPrompt(style, duration);
    var headers := BuildHeaders(env.apiKey.value, env.groupId);
    var call := ApiCall(MusicEndpoint, headers, MusicBody("music-2.5", prompt, duration, true));
    assert call == MusicCall(env.apiKey.value, env.groupId, style, duration);
    var audioUrl := svc.post(call);
    if audioUrl.None? {
      return Err(RequestFailed);
    }
    if !svc.download(audioUrl.value) {
      return Err(DownloadFailed);
    }
    r := Ok(MusicAsset(audioUrl.value, AudioFilePath(svc.tmpDir, "music", now), duration));
  }

  method GenerateNarration(script: string, env: Env, svc: Services, now: int) returns (r: Result<NarrationAsset>)
    ensures r == NarrationOutcome(script, env, svc, now)
  {
    if env.apiKey.None? || env.apiKey.value == [] {
      return Err(KeyMissing);
    }
    var headers := BuildHeaders(env.apiKey.value, env.groupId);
    var audioUrl := svc.post(ApiCall(SpeechEndpoint, headers, SpeechBody("speech-2.5-hd", script, "professional-neutral", 1.0)));
    if audioUrl.None? {
      return Err(RequestFailed);
    }
    if !svc.download(audioUrl.value) {
      return Err(DownloadFailed);
    }
    var timecodes := CreateNarrationTimecodes(script);
    r := Ok(NarrationAsset(audioUrl.value, AudioFilePath(svc.tmpDir, "narration", now), timecodes));
  }

  /** Both calls fail with the key message exactly when the key is unset or empty;
      a successful call reports the URL MiniMax returned and a `.mp3` file in the
      temporary directory. */
  lemma OutcomeMeaning(style: string, duration: int, env: Env, svc: Services, now: int)
    ensures MusicOutcome(style, duration, env, svc, now) == Err(KeyMissing) <==> !Truthy(env.apiKey)
    ensures var m := MusicOutcome(style, duration, env, svc, now);
      m.Ok? ==>
        (&& Truthy(env.apiKey)
         && svc.post(MusicCall(env.apiKey.value, env.groupId, style, duration)) == Some(m.value.url)
         && svc.download(m.value.url) && m.value.duration == duration
         && EndsWith(m.value.localPath, ".mp3") && m.value.localPath[..|svc.tmpDir|] == svc.tmpDir)
    ensures Truthy(env.apiKey) ==>
      var call := svc.post(MusicCall(env.apiKey.value, env.groupId, style, duration));
      call.Some? && svc.download(call.value) ==> MusicOutcome(style, duration, env, svc, now).Ok?
  {
    AudioFilePathShape(svc.tmpDir, "music", now);
    if Truthy(env.apiKey) {
      var call := svc.post(MusicCall(env.apiKey.value, env.groupId, style, duration));
      if call.Some? && svc.download(call.value) {
        assert MusicOutcome(style, duration, env, svc, now)
            == Ok(MusicAsset(call.value, AudioFilePath(svc.tmpDir, "music", now), duration));
      }
    }
  }

  lemma NarrationOutcomeMeaning(script: string, env: Env, svc: Services, now: int)
    ensures NarrationOutcome(script, env, svc, now) == Err(KeyMissing) <==> !Truthy(env.apiKey)
    ensures var n := NarrationOutcome(script, env, svc, now);
      n.Ok? ==>
        (&& Truthy(env.apiKey)
         && svc.post(SpeechCall(env.apiKey.value, env.groupId, script)) == Some(n.value.url)
         && svc.download(n.value.url)
         && EndsWith(n.value.localPath, ".mp3") && n.value.localPath[..|svc.tmpDir|] == svc.tmpDir)
    ensures Truthy(env.apiKey) ==>
      var call := svc.post(SpeechCall(env.apiKey.value, env.groupId, script));
      call.Some? && svc.download(call.value) ==> NarrationOutcome(script, env, svc, now).Ok?
  {
    AudioFilePathShape(svc.tmpDir, "narration", now);
  }

  /** A saved file lies in the temporary directory and has the `.mp3` extension. */
  lemma AudioFilePathShape(tmpDir: string, prefix: string, now: int)
    ensures var p := AudioFilePath(tmpDir, prefix, now);
      EndsWith(p, ".mp3") && |tmpDir| <= |p| && p[..|tmpDir|] == tmpDir
  {
    var a := tmpDir + "/";
    var b := a + prefix;
    var c := b + "-";
    var q := c + IntToString(now);
    var p := q + ".mp3";
    assert p == AudioFilePath(tmpDir, prefix, now);
    assert p[|p| - 4..] == ".mp3";
    forall i | 0 <= i < |tmpDir| ensures p[i] == tmpDir[i] {
      assert p[i] == q[i] == c[i] == b[i] == a[i];
    }
    assert p[..|tmpDir|] == tmpDir;
  }

  /** The narration timecodes depend on the script alone, not on what MiniMax returns. */
  lemma NarrationTimecodesFromScript(script: string, env: Env, svc1: Services, svc2: Services, now1: int, now2: int)
    requires NarrationOutcome(script, env, svc1, now1).Ok? && NarrationOutcome(script, env, svc2, now2).Ok?
    ensures NarrationOutcome(script, env, svc1, now1).value.timecodes
         == NarrationOutcome(script, env, svc2, now2).value.timecodes
         == Timecodes(script)
  {
  }

  /** The group id header is sent exactly when a group id is set. */
  lemma GroupIdHeader(env: Env, style: string, duration: int, script: string)
    requires Truthy(env.apiKey)
    ensures "X-Group-Id" in MusicCall(env.apiKey.value, env.groupId, style, duration).headers <==> Truthy(env.groupId)
    ensures "X-Group-Id" in SpeechCall(env.apiKey.value, env.groupId, script).headers <==> Truthy(env.groupId)
  {
  }

  // ------------------------------------------------------------ sequencing

  /** What `aubio` and `ffmpeg` report when run on a given audio file. */
  datatype Tools = Tools(aubio: string -> Option<string>, ffmpeg: string -> Option<string>)

  /** `generateAudio`: music, then narration, then beats from the music file.
      `musicNow` and `narrationNow` are the clock readings of the two downloads. */
  function AudioOutcome(style: string, script: string, duration: int, env: Env, svc: Services,
                        musicNow: int, narrationNow: int, tools: Tools): Result<AudioResult>
  {
    match MusicOutcome(style, duration, env, svc, musicNow)
    case Err(e) => Err(e)
    case Ok(music) =>
      match NarrationOutcome(script, env, svc, narrationNow)
      case Err(e) => Err(e)
      case Ok(narration) =>
        Ok(AudioResult(music, narration, BeatChain(tools.aubio(music.localPath), tools.ffmpeg(music.localPath))))
  }

  /** The MiniMax requests `generateAudio` issues, in order. */
  function AudioRequests(style: string, script: string, duration: int, env: Env, svc: Services, musicNow: int): seq<ApiCall> {
    if !Truthy(env.apiKey) then []
    else
      var music := MusicCall(env.apiKey.value, env.groupId, style, duration);
      if MusicOutcome(style, duration, env, svc, musicNow).Err? then [music]
      else [music, SpeechCall(env.apiKey.value, env.groupId, script)]
  }

  method GenerateAudioAssets(style: string, script: string, duration: int, env: Env, svc: Services,
                             musicNow: int, narrationNow: int, tools: Tools)
    returns (r: Result<AudioResult>, posted: seq<ApiCall>)
    ensures r == AudioOutcome(style, script, duration, env, svc, musicNow, narrationNow, tools)
    ensures posted == AudioRequests(style, script, duration, env, svc, musicNow)
  {
    posted := [];
    var music := GenerateMusic(style, duration, env, svc, musicNow);
    if Truthy(env.apiKey) {
      posted := posted + [MusicCall(env.apiKey.value, env.groupId, style, duration)];
    }
    if music.Err? {
      return Err(music.error), posted;
    }
    var narration := GenerateNarration(script, env, svc, narrationNow);
    posted := posted + [SpeechCall(env.apiKey.value, env.groupId, script)];
    if narration.Err? {
      return Err(narration.error), posted;
    }
    var beats := DetectBeats(tools.aubio(music.value.localPath), tools.ffmpeg(music.value.localPath));
    r := Ok(AudioResult(music.value, narration.value, beats));
  }

  /** Without a key nothing is requested and the call fails with the key message. */
  lemma AudioNeedsKey(style: string, script: string, duration: int, env: Env, svc: Services,
                      musicNow: int, narrationNow: int, tools: Tools)
    requires !Truthy(env.apiKey)
    ensures AudioOutcome(style, script, duration, env, svc, musicNow, narrationNow, tools) == Err(KeyMissing)
    ensures AudioRequests(style, script, duration, env, svc, musicNow) == []
  {
  }

  /** The music is requested first and narration only after the music succeeded;
      a successful result carries the two assets and a non-empty beat list
      detected on the music file. */
  lemma AudioOrder(style: string, script: string, duration: int, env: Env, svc: Services,
                   musicNow: int, narrationNow: int, tools: Tools)
    requires Truthy(env.apiKey)
    ensures var calls := AudioRequests(style, script, duration, env, svc, musicNow);
      && 1 <= |calls| <= 2
      && calls[0].endpoint == MusicEndpoint
      && (|calls| == 2 <==> MusicOutcome(style, duration, env, svc, musicNow).Ok?)
      && (|calls| == 2 ==> calls[1].endpoint == SpeechEndpoint && calls[1].body.text == script)
    ensures var r := AudioOutcome(style, script, duration, env, svc, musicNow, narrationNow, tools);
      r.Ok? ==>
        && Ok(r.value.music) == MusicOutcome(style, duration, env, svc, musicNow)
        && Ok(r.value.narration) == NarrationOutcome(script, env, svc, narrationNow)
        && r.value.beats == BeatChain(tools.aubio(r.value.music.localPath), tools.ffmpeg(r.value.music.localPath))
        && |r.value.beats| > 0
    ensures MusicOutcome(style, duration, env, svc, musicNow).Err? ==>
      AudioOutcome(style, script, duration, env, svc, musicNow, narrationNow, tools)
        == Err(MusicOutcome(style, duration, env, svc, musicNow).error)
  {
  }
}
