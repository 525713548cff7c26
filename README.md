# Enrichment pipeline of url-to-video-mcp, modelled in Dafny

This project models the enrichment pipeline of the `url-to-video-mcp` server. The pipeline turns a page URL into content, branding and audio for a generated video. It has four parts:

- **URL extraction** (`extract-url.ts`, module `ExtractUrl`):
  - content comes from Tabstack;
  - branding comes from cloud logo services and a screenshot palette;
  - a single fallback screenshot covers whatever is still missing;
  - the logo chain tries Clearbit, then Brandfetch, then six common paths, then the Google favicon;
  - the pure rules behind it: placeholder content, theme detection, industry inference and the font rule;
  - the logo file is saved under `public/images/`.
- **Audio** (`generate-audio.ts`, module `GenerateAudio`):
  - the music prompt table;
  - the narration timecodes, at 2.5 words per second with a 0.5 s pause;
  - the MiniMax key and group-id guards;
  - the sequence music, then narration, then beats.
- **Beats** (`beat-detection.ts`, module `BeatDetection`):
  - the strategy chain aubio, then ffmpeg, then a 120 BPM grid;
  - parsing of the tools' output;
  - the fixed-tempo grid;
  - the tempo default;
  - the near-duplicate filter of the energy detector.
- **Palette** (`color-extraction.ts`, module `ColorExtraction`):
  - the four-colour palette derived from a dominant colour, with `toHex`;
  - the fixed palette for image URLs.

Three support modules define the JavaScript built-ins the code relies on:

- `JsStrings`: `trim`, `toLowerCase`, `includes`, `endsWith`, `replace`, `split` on a character and on `/[...]+/`, and `String(n)`.
- `JsNumbers`: numbers with NaN and the infinities, `parseFloat`, `parseInt(s, 16)` and `toFixed(2)`.
- `JsArrays`: `filter`, and the regrouping of concatenations that the proofs about built-up arrays and strings share.

`Wrappers` holds `Option` and `Result`.

**Inputs, not code.** Every network reply, browser screenshot, image analysis, program output, file write and clock reading is an input to the model. Examples:

- a HEAD status per URL;
- the decoded JSON of a GET;
- what `aubio` prints;
- whether a download succeeds;
- `Date.now()`.

The model states what the code does with those results. The few places where it abstracts them (error contents, `undefined` replies) are listed under "## Left out".

**Form of the model.** It follows the code:

- Code that reassigns variables or loops is a `method` with loop invariants:
  - `extractUrlContent` (split into `ExtractUrlContent` and `AssembleExtraction`);
  - `extractLogoFromCloud` and `downloadLogoToPublic`;
  - `createNarrationTimecodes` and its loop;
  - the header dictionary;
  - `generateMusic`, `generateNarration` and `generateAudio`;
  - `detectBeats` and the silence-detection `while` loop;
  - `generateHeuristicBeats`;
  - the dedup loop.
- Each method is proved equal to a specification function, and the properties of the source are lemmas about that function.
- Pure expressions (`detectTheme`, `inferIndustry`, `createMusicPrompt`, `toHex`, the palette) are functions.

**Arithmetic.** Times are exact reals. Colour arithmetic is in integers:

- luminance > 128 is `299 r + 587 g + 114 b > 128000`;
- `Math.round(0.6 c)` is `(6 c + 5) / 10`;
- `Math.round(min(255, 1.4 c))` is `(min(14 c, 2550) + 5) / 10`.

`RoundingExact` proves both rounding rules agree with the real products: `6 c` and `14 c` are even, so no tie can arise.

**Behaviour of the code worth knowing.**

- a missing `MINIMAX_API_KEY` throws (`KeyMissing`);
- `detectBeats` always runs on the music file;
- the 120 BPM grid (0.5 s apart) is the only synthesized beat series;
- the ffmpeg beat strategy reads `stderr` of a command whose log goes to `stdout`, so it never finds a beat (see "## Findings"); `BeatChain`, `DetectBeats` and the `generateAudio` model follow the code as written, and `BeatChainIntended` is the chain with that step reading the log;
- `extractUrlContent` rejects when `new URL(url)` throws, or when a needed screenshot or its colour analysis fails.

## Model

All source paths are under `mcp-server/src/`.

| member | source | states |
|---|---|---|
| JsStrings.ToLower | mcp-server/src/tools/extract-url.ts:316 | The lower-cased text has the same length, and each character is the ASCII lower case of the one at the same index |
| JsStrings.ToLowerIdempotent | mcp-server/src/tools/generate-audio.ts:158 | Lower-casing twice is the same as lower-casing once |
| JsStrings.SpanLength | mcp-server/src/utils/beat-detection.ts:85 | The length of the longest prefix satisfying the class: all of it satisfies it, and the next character (if any) does not |
| JsStrings.SpanLengthNot | mcp-server/src/tools/extract-url.ts:264 | The length of the longest prefix avoiding the class (`[^;]+`): none of it is in the class, and the next character (if any) is |
| JsStrings.SpanLengthNotOfPrefix | mcp-server/src/tools/extract-url.ts:264 | `[^;]+` over a `;`-free part followed by `;` or the end matches exactly that part |
| JsStrings.Trim | mcp-server/src/utils/beat-detection.ts:59 | `trim()` result: no white space at either end, empty exactly when the input is all white space. It occurs in the input right after the leading white space, and everything after it is white space |
| JsStrings.TrimNoneSatisfy | mcp-server/src/tools/generate-audio.ts:179 | Trimming only removes characters: a character class absent from the input is absent from the result |
| JsStrings.TrimNoop | mcp-server/src/utils/beat-detection.ts:117 | A non-empty string with no white space at either end is its own `trim()` |
| JsStrings.IndexOf | mcp-server/src/tools/extract-url.ts:162 | `indexOf`: the returned position holds the pattern and no earlier position at or after `from` does; `None` means no position does |
| JsStrings.ContainsIff | mcp-server/src/tools/extract-url.ts:329 | `includes(p)` holds exactly when `p` occurs at some position |
| JsStrings.EndsWith | mcp-server/src/tools/extract-url.ts:294-295 | `endsWith`; `EndsWithIff` states its meaning, and `UrlSuffixDecides` and `PromptEndsWithSuffix` use it |
| JsStrings.EndsWithIff | mcp-server/src/tools/extract-url.ts:294-295 | `s.endsWith(suffix)` holds exactly when `s` is some string followed by `suffix` |
| JsStrings.ReplaceFirst | mcp-server/src/tools/extract-url.ts:162 | `replace` with a string pattern: with no occurrence the string is unchanged; otherwise the first occurrence (the `indexOf` position) is replaced and the text before and after it is kept |
| JsStrings.ReplaceLeadingWww | mcp-server/src/tools/extract-url.ts:162 | `replace('www.', '')` of `www.` + rest is rest |
| JsStrings.SplitOn | mcp-server/src/utils/beat-detection.ts:60 | `split(sep)` yields at least one piece and no piece contains the separator |
| JsStrings.JoinSplit | mcp-server/src/utils/beat-detection.ts:60 | Joining the pieces of a split with the separator gives back the string |
| JsStrings.SplitJoin | mcp-server/src/utils/beat-detection.ts:60 | Splitting a join of separator-free pieces gives back exactly those pieces |
| JsStrings.SplitPiece | mcp-server/src/tools/extract-url.ts:247 | A string without the separator splits into itself alone |
| JsStrings.SplitPieceThenSep | mcp-server/src/tools/extract-url.ts:247 | A separator-free piece followed by the separator becomes the first piece of the split |
| JsStrings.SplitRuns | mcp-server/src/tools/generate-audio.ts:170 | `split(/[.!?]+/)` yields at least one piece and no piece holds a separator character. `SplitRunsOfInterleave` fixes the cut positions, order and multiplicity |
| JsStrings.SplitRunsConcat | mcp-server/src/tools/generate-audio.ts:170 | The pieces of a run-split, concatenated, are the string with every separator removed, so no other character is lost or added |
| JsStrings.Interleave | mcp-server/src/tools/generate-audio.ts:170 | The text made of pieces with a separator run between each two. It is the inverse of the run-split, by `SplitRunsOfInterleave` |
| JsStrings.SplitRunsOfInterleave | mcp-server/src/tools/generate-audio.ts:170 | Round trip. Join separator-free pieces with non-empty runs of separator characters, where only the first and last piece may be empty. Splitting the result gives back exactly those pieces, in order and one for one |
| JsStrings.RemoveAll | mcp-server/src/tools/extract-url.ts:266 | `replace(/[...]/g, '')` leaves no character of the class |
| JsStrings.RemoveAllAppend | mcp-server/src/tools/extract-url.ts:301 | Removing a class distributes over concatenation |
| JsStrings.RemoveAllNone | mcp-server/src/tools/extract-url.ts:301 | A string free of the class is unchanged |
| JsStrings.RemoveAllEvery | mcp-server/src/tools/extract-url.ts:266 | A string made only of the class is removed entirely |
| JsStrings.RemoveAllIdempotent | mcp-server/src/tools/extract-url.ts:301 | Removing a class a second time changes nothing |
| JsStrings.DecimalString | mcp-server/src/tools/generate-audio.ts:160 | `String(n)` of a natural number is a non-empty string of digits |
| JsStrings.HexString | mcp-server/src/utils/color-extraction.ts:52 | `n.toString(16)` is non-empty |
| JsStrings.IntToString | mcp-server/src/tools/generate-audio.ts:194 | `String(i)` for an integer; `ParseFloatOfIntString` proves it reads back as `i` |
| JsArrays.Filter | mcp-server/src/tools/generate-audio.ts:170 | `Array.prototype.filter`: the result is no longer than the input. `FilterMembers`, `FilterAppend` and `FilterSingle` fix its contents |
| JsArrays.FilterMembers | mcp-server/src/tools/generate-audio.ts:170 | A value is in the result exactly when it is in the input and passes the test |
| JsArrays.FilterAppend | mcp-server/src/utils/beat-detection.ts:62 | Filtering keeps order: filtering a concatenation concatenates the filtered parts |
| JsArrays.FilterSingle | mcp-server/src/utils/beat-detection.ts:62 | One value is kept exactly when it passes the test. With `FilterAppend`, this fixes the result for every input, multiplicity included |
| JsNumbers.ParseFloat | mcp-server/src/utils/beat-detection.ts:61 | `parseFloat` of a blank string is NaN (a number needs a non-blank character) |
| JsNumbers.ParseFloatOfDecimal | mcp-server/src/utils/beat-detection.ts:61 | `parseFloat(String(n))` is `n`: reading back a decimal numeral gives its value |
| JsNumbers.ParseFloatOfIntString | mcp-server/src/tools/generate-audio.ts:194 | `parseFloat(String(i))` is `i` for every integer, negative ones included |
| JsNumbers.NumeralTextShape | mcp-server/src/utils/beat-detection.ts:85 | A decimal numeral `w` or `w.f` is made of digits and dots and starts and ends with a digit |
| JsNumbers.ParseFloatOfNumeral | mcp-server/src/utils/beat-detection.ts:61 | `parseFloat` of a decimal numeral with or without a fractional part gives its exact value |
| JsNumbers.DigitsValueOfDecimal | mcp-server/src/utils/beat-detection.ts:61 | The digits of `String(n)` have value `n` |
| JsNumbers.ParseFloatSkipsSpace | mcp-server/src/utils/beat-detection.ts:61 | `parseFloat` ignores a leading white-space character |
| JsNumbers.ParseFloatNaN | mcp-server/src/utils/beat-detection.ts:62 | A string whose first non-blank character cannot start a number reads as NaN |
| JsNumbers.HexValueAppend | mcp-server/src/tools/extract-url.ts:274 | The value of concatenated hex digits is the first part's value shifted by 16^(length of the second) plus the second's |
| JsNumbers.HexValueBound | mcp-server/src/tools/extract-url.ts:274 | `n` hex digits have a value below 16^n |
| JsNumbers.ParseIntHexDigits | mcp-server/src/tools/extract-url.ts:274 | `parseInt(ds, 16)` of a non-empty string of hex digits is their value |
| JsNumbers.ParseIntHex | mcp-server/src/tools/extract-url.ts:274 | `parseInt(s, 16)`. `ParseIntHexDigits` and `BackgroundValueOfHex` state what it reads |
| JsNumbers.RoundTo2 | mcp-server/src/utils/beat-detection.ts:104 | `parseFloat(t.toFixed(2))` on exact reals. `RoundTo2Near` and `RoundHalfStep` say what it gives |
| JsNumbers.RoundTo2Near | mcp-server/src/utils/beat-detection.ts:104 | The rounded time is a whole number of hundredths, within 0.005 of the time |
| ColorExtraction.HexStringValue | mcp-server/src/utils/color-extraction.ts:52 | `toString(16)` emits lower-case hex digits that read back as the number |
| ColorExtraction.HexStringShort | mcp-server/src/utils/color-extraction.ts:52-53 | A channel below 16 has one hex digit, otherwise two (hence the padding rule) |
| ColorExtraction.HexPair | mcp-server/src/utils/color-extraction.ts:51-54 | A padded channel is two lower-case hex digits that read back as the channel |
| ColorExtraction.ToHex | mcp-server/src/utils/color-extraction.ts:50-54 | `toHex` yields `#` and six lower-case hex digits, whose three pairs read back as the three channels (round trip) |
| ColorExtraction.Darken | mcp-server/src/utils/color-extraction.ts:59-63 | A secondary channel is a channel (0..255) and never exceeds the primary one |
| ColorExtraction.Lighten | mcp-server/src/utils/color-extraction.ts:66-70 | An accent channel is a channel (at most 255) and never falls below the primary one |
| ColorExtraction.RoundingExact | mcp-server/src/utils/color-extraction.ts:59-70 | The integer rules are `Math.round` of `0.6 c` and of `min(255, 1.4 c)`: within half a unit, which is 255 once clamped |
| ColorExtraction.HexValueOfPair | mcp-server/src/utils/color-extraction.ts:53 | Two hex digits have value 16 times the first plus the second |
| ColorExtraction.LiteralColor | mcp-server/src/utils/color-extraction.ts:74 | A `#` and six hex digits is a hex colour, whose channels are its three digit pairs |
| ColorExtraction.WhiteAndBlack | mcp-server/src/utils/color-extraction.ts:74 | `#FFFFFF` denotes (255, 255, 255) and `#000000` denotes (0, 0, 0) |
| ColorExtraction.GeneratePaletteFromDominant | mcp-server/src/utils/color-extraction.ts:49-77 | All four colours are set and well-formed. The primary denotes the dominant colour. Secondary and accent denote the darkened and lightened channels. The background is `#FFFFFF` exactly when luminance exceeds 128, else `#000000` |
| ColorExtraction.PaletteChannelOrder | mcp-server/src/utils/color-extraction.ts:56-70 | Channel by channel: secondary <= primary <= accent <= 255 |
| ColorExtraction.ExtractColorsFromImage | mcp-server/src/utils/color-extraction.ts:36-47 | For any URL: the well-formed palette denoting 0066FF, 003D99, 66B3FF and FFFFFF |
| ColorExtraction.DefaultPaletteColors | mcp-server/src/utils/color-extraction.ts:41-46 | The fixed palette is well-formed and its four colours denote those channels |
| ExtractUrl.FirstWhere | mcp-server/src/tools/extract-url.ts:225-233 | The early-return search: the index found satisfies the test and no earlier one does; `None` means none does |
| ExtractUrl.PackedChannelsOfBytes | mcp-server/src/tools/extract-url.ts:275-277 | The three shifts-and-masks recover R, G and B from `R*65536 + G*256 + B` |
| ExtractUrl.BackgroundValueOfHex | mcp-server/src/tools/extract-url.ts:274 | `parseInt(bg.slice(1), 16)` of a hex colour packs its three channels |
| ExtractUrl.DetectTheme | mcp-server/src/tools/extract-url.ts:271-280 | `detectTheme`. `DetectThemeOfHex`, `ThemeOfPackedValue`, `ThemeOfWhiteAndBlack` and `UnparsableBackgroundIsDark` state its meaning |
| ExtractUrl.DetectThemeOfHex | mcp-server/src/tools/extract-url.ts:271-280 | For a hex background, the theme is light exactly when the luminance of its channels exceeds 128 |
| ExtractUrl.ThemeOfPackedValue | mcp-server/src/tools/extract-url.ts:275-279 | The theme of a packed value is decided by the luminance of the bytes packed into it |
| ExtractUrl.ThemeOfWhiteAndBlack | mcp-server/src/tools/extract-url.ts:271-280 | A `#FFFFFF` background is light and a `#000000` one dark |
| ExtractUrl.UnparsableBackgroundIsDark | mcp-server/src/tools/extract-url.ts:274-279 | A background whose digits do not parse (NaN, shifted as 0) is dark |
| ExtractUrl.ThemeOfDerivedPalette | mcp-server/src/tools/extract-url.ts:177 | For a screenshot palette, the theme agrees with the luminance that chose its background |
| ExtractUrl.InferIndustry | mcp-server/src/tools/extract-url.ts:315-335 | `inferIndustry`. `InferIndustryFirst` states its first-match meaning |
| ExtractUrl.InferIndustryFirst | mcp-server/src/tools/extract-url.ts:315-335 | `general` exactly when no industry's keywords occur in the lower-cased title + " " + description. Otherwise it is the first industry, in table order, with a keyword that occurs |
| ExtractUrl.ChooseIndustryFirst | mcp-server/src/tools/extract-url.ts:328-334 | The same first-match rule as `InferIndustryFirst`, for any table whose names are not `general` |
| ExtractUrl.IndustryNames | mcp-server/src/tools/extract-url.ts:318-326 | No industry in the table is named `general` |
| ExtractUrl.SoftwareIsTech | mcp-server/src/tools/extract-url.ts:319 | A text mentioning "software" is `tech`, whatever else it mentions |
| ExtractUrl.EmptyTextIsGeneral | mcp-server/src/tools/extract-url.ts:316-334 | An empty title and description give `general` |
| ExtractUrl.Capitalize | mcp-server/src/tools/extract-url.ts:250 | Same length; the first character upper-cased, the rest unchanged |
| ExtractUrl.SplitOnHead | mcp-server/src/tools/extract-url.ts:247 | `split('.')[0]` is the longest prefix before the first `.` |
| ExtractUrl.ExtractContentFromScreenshot | mcp-server/src/tools/extract-url.ts:241-260 | The placeholder content. `PlaceholderShape` and `PlaceholderOfWwwHost` state its meaning |
| ExtractUrl.PlaceholderShape | mcp-server/src/tools/extract-url.ts:241-260 | The label is the dot-free prefix of the host without its first `www.`. The title capitalises it and the description embeds it. There are three features, an empty hero image and no sections |
| ExtractUrl.LabelOfWwwHost | mcp-server/src/tools/extract-url.ts:247 | The label of `www.<d>.<rest>` is `<d>` |
| ExtractUrl.PlaceholderOfWwwHost | mcp-server/src/tools/extract-url.ts:247-251 | For `www.<d>.<rest>`, the title is `<d>` capitalised (`www.acme.io` gives `Acme`) and the description names `<d>` |
| ExtractUrl.FontCapture | mcp-server/src/tools/extract-url.ts:264 | A capture of `font-family:\s*([^;]+)` at the head is non-empty and holds no `;` |
| ExtractUrl.FontValue | mcp-server/src/tools/extract-url.ts:264 | The capture of `\s*([^;]+)` after the key. There is none exactly when the text is empty or starts with `;`. Otherwise it is non-empty and has no `;`. It sits after white space only, and runs to the first `;` or the end. If it starts with white space, it is that one character: `\s*` gives one back when nothing else precedes the `;` |
| ExtractUrl.FirstFontCapture | mcp-server/src/tools/extract-url.ts:264 | The leftmost match. A capture found is the one at some position from `from` on, and no earlier position matches. `None` means no position matches. The capture is non-empty and has no `;` |
| ExtractUrl.FirstFontCaptureNone | mcp-server/src/tools/extract-url.ts:264-268 | Without `font-family:` at or after a position, no match is found from there |
| ExtractUrl.FontDefault | mcp-server/src/tools/extract-url.ts:268 | CSS without `font-family:` gives `system-ui, sans-serif` |
| ExtractUrl.FontCaptureOfDeclaration | mcp-server/src/tools/extract-url.ts:264 | `font-family: <v>;...` captures exactly `<v>`, stopping at the first `;` |
| ExtractUrl.FontCaptureAfterKey | mcp-server/src/tools/extract-url.ts:264 | A match at the head reads its capture from the text after the key |
| ExtractUrl.ValueAfterSpace | mcp-server/src/tools/extract-url.ts:264 | After the colon, one space is skipped and the value runs up to its `;` |
| ExtractUrl.ValueAfterSpaces | mcp-server/src/tools/extract-url.ts:264 | After any white space, a value not starting with white space is captured exactly, up to its `;` |
| ExtractUrl.NoCaptureWithoutF | mcp-server/src/tools/extract-url.ts:264 | No match starts at a character other than `f` |
| ExtractUrl.FirstCaptureAt | mcp-server/src/tools/extract-url.ts:264 | A match at a position with none before it is the leftmost match |
| ExtractUrl.FontOfDeclaration | mcp-server/src/tools/extract-url.ts:262-267 | A leading declaration yields its value with quotes removed and trimmed |
| ExtractUrl.FontOfDeclarationAfter | mcp-server/src/tools/extract-url.ts:262-267 | CSS such as `a{font-family: Inter;}` (text without `f`, the key, white space, `value;`) yields the value with quotes removed and trimmed |
| ExtractUrl.ExtractFontFromCss | mcp-server/src/tools/extract-url.ts:262-269 | `extractFontFromCss`. `FontOfDeclarationAfter`, `FontOfDeclaration`, `FontRoundTrip`, `FontDefault` and `FontIsClean` state its meaning |
| ExtractUrl.FontRoundTrip | mcp-server/src/tools/extract-url.ts:264-266 | A plain font name (no quote, no `;`, no blank ends) is read back unchanged |
| ExtractUrl.RemoveQuotesClean | mcp-server/src/tools/extract-url.ts:266 | Stripping quotes from a `;`-free capture leaves neither quotes nor `;` |
| ExtractUrl.DefaultFontIsClean | mcp-server/src/tools/extract-url.ts:268 | The default font has no quote, no `;` and no blank ends |
| ExtractUrl.FontIsClean | mcp-server/src/tools/extract-url.ts:262-269 | Whatever the CSS, the font has no quote and no `;`, and no white space at either end |
| ExtractUrl.CommonLogoPaths | mcp-server/src/tools/extract-url.ts:216-223 | Six candidate paths under the origin |
| ExtractUrl.ExtractLogoFromCloud | mcp-server/src/tools/extract-url.ts:184-239 | The method (with its early-return loop) returns the chain's choice, `LogoChoice` |
| ExtractUrl.LogoChoice | mcp-server/src/tools/extract-url.ts:184-239 | The logo chain's choice. `LogoChainOrder` states its priority order |
| ExtractUrl.LogoChainOrder | mcp-server/src/tools/extract-url.ts:184-239 | Priority order: Clearbit on a 200; else a non-empty Brandfetch `logos[0].formats[0].src`; else the first common path answering 200; else the favicon URL with `sz=256`. The result is never empty |
| ExtractUrl.BrandfetchSrcOfBody | mcp-server/src/tools/extract-url.ts:205-206 | A body `{logos:[{formats:[{src}]}]}` yields `src` when non-empty; an empty `logos` yields nothing |
| ExtractUrl.BrandfetchSrc | mcp-server/src/tools/extract-url.ts:205-206 | The optional-chaining lookup. `BrandfetchSrcOfBody` states what it yields |
| ExtractUrl.CleanDomain | mcp-server/src/tools/extract-url.ts:301 | The cleaned domain contains only `[a-z0-9.-]` |
| ExtractUrl.CleanDomainOfHost | mcp-server/src/tools/extract-url.ts:301 | A clean host is kept as it is, and a leading `www.` is dropped |
| ExtractUrl.LogoExtension | mcp-server/src/tools/extract-url.ts:290-295 | The extension is always `svg`, `jpg` or `png` |
| ExtractUrl.ContentTypeWins | mcp-server/src/tools/extract-url.ts:292-293 | A content type naming svg or jpeg/jpg decides the extension, whatever the URL |
| ExtractUrl.UrlSuffixDecides | mcp-server/src/tools/extract-url.ts:290-295 | With no hint in the content type, `.svg` gives svg and `.jpg`/`.jpeg` give jpg. Every URL ending in none of these gives png |
| ExtractUrl.DownloadLogoToPublic | mcp-server/src/tools/extract-url.ts:282-313 | The method (with its reassigned `ext`) returns `LogoStaticPath` |
| ExtractUrl.StaticPathShape | mcp-server/src/tools/extract-url.ts:282-313 | The path is `""` exactly for an empty URL, a failed download or a failed write. Otherwise it is `images/logo-<clean domain>.<ext>`, with `ext` one of svg, jpg and png. `ext` is what `LogoExtension` gives for the reply's content type and the URL |
| ExtractUrl.LogoStaticPath | mcp-server/src/tools/extract-url.ts:282-313 | What `downloadLogoToPublic` returns. `StaticPathShape` states its meaning |
| ExtractUrl.ExtractWithTabstack | mcp-server/src/tools/extract-url.ts:104-155 | Fails with the key message exactly when `TABSTACK_API_KEY` is unset or empty. Succeeds exactly when the key is set and the request returns, and then yields the reply's data |
| ExtractUrl.ExtractBrandingSimple | mcp-server/src/tools/extract-url.ts:161-179 | The method equals `BrandingSimple`: the chain's logo with the `www.`-stripped host, the screenshot colours, the font stack `system-ui, -apple-system, sans-serif` and the detected theme; nothing when the screenshot or its analysis throws |
| ExtractUrl.ShotPalette | mcp-server/src/utils/color-extraction.ts:22-25 | A screenshot that yields colours yields the palette generated from the dominant colour `sharp` reports: it is well formed and its primary colour is that dominant colour |
| ExtractUrl.BrandingSimple | mcp-server/src/tools/extract-url.ts:161-179 | Strategy 2's branding. Its parts are stated through `LogoChainOrder` and `ExtractionBranding` |
| ExtractUrl.ExtractUrlContent | mcp-server/src/tools/extract-url.ts:38-102 | The method, with its reassigned `content` and `branding`, computes `Extraction` |
| ExtractUrl.AssembleExtraction | mcp-server/src/tools/extract-url.ts:62-101 | The fallback, industry and logo-download steps compute `Assemble` |
| ExtractUrl.Extraction | mcp-server/src/tools/extract-url.ts:38-102 | What `extractUrlContent` resolves to. `ExtractionErrors`, `ExtractionContent`, `ExtractionBranding` and `ExtractionStaticPath` state its meaning |
| ExtractUrl.Assemble | mcp-server/src/tools/extract-url.ts:62-101 | The fallback and final steps. `AssembleStaticPath` and `NoFallbackWhenBothSucceed` state them |
| ExtractUrl.WithStaticPathFacts | mcp-server/src/tools/extract-url.ts:89-92 | `staticPath` is set only for a non-empty path, to that path; nothing else in the branding changes |
| ExtractUrl.ExtractionErrors | mcp-server/src/tools/extract-url.ts:38-102 | Fails exactly when the URL does not parse, or a needed fallback screenshot throws, or neither screenshot yields colours. Tabstack and cloud success together guarantee success |
| ExtractUrl.ExtractionContent | mcp-server/src/tools/extract-url.ts:63-71 | Tabstack content is kept whenever there is any, else it is the host's placeholder. The metadata is the inferred industry and the host name |
| ExtractUrl.ExtractionBranding | mcp-server/src/tools/extract-url.ts:73-82 | Cloud branding is kept whenever it succeeded (up to `staticPath`). Otherwise the logo is `<url>/favicon.ico`, the font is `system-ui, sans-serif` and the colours are the fallback screenshot's. The colours are the palette generated from the chosen screenshot's dominant colour, and the theme is always the one detected from them |
| ExtractUrl.ExtractionStaticPath | mcp-server/src/tools/extract-url.ts:89-92 | `staticPath` is set exactly when the logo download returned a non-empty path, and holds that path |
| ExtractUrl.AssembleStaticPath | mcp-server/src/tools/extract-url.ts:89-92 | The same for the assembly step, given cloud branding without `staticPath` |
| ExtractUrl.NoFallbackWhenBothSucceed | mcp-server/src/tools/extract-url.ts:63 | When Tabstack and cloud branding both succeed, the fallback screenshot has no effect |
| ExtractUrl.AssembleIgnoresFallback | mcp-server/src/tools/extract-url.ts:63-82 | The same for the assembly step: with content and branding in hand, the fallback screenshot is never looked at |
| GenerateAudio.BasePrompt | mcp-server/src/tools/generate-audio.ts:147-158 | The table entry for the lower-cased style, or the lo-fi prompt for an unknown style; never empty |
| GenerateAudio.PromptEndsWithSuffix | mcp-server/src/tools/generate-audio.ts:160 | Every prompt ends with `, instrumental only, no singing, no vocals, no lyrics, <duration> seconds` |
| GenerateAudio.UnknownStyleIsLoFi | mcp-server/src/tools/generate-audio.ts:158 | A style missing from the table gets the lo-fi prompt |
| GenerateAudio.PromptIgnoresCase | mcp-server/src/tools/generate-audio.ts:158 | The prompt of a style and of its lower-case form are equal |
| GenerateAudio.MixedCaseStyle | mcp-server/src/tools/generate-audio.ts:151-158 | `Jazz` gets the jazz prompt |
| GenerateAudio.CreateMusicPrompt | mcp-server/src/tools/generate-audio.ts:146-161 | `createMusicPrompt`. `BasePrompt`, `PromptEndsWithSuffix`, `UnknownStyleIsLoFi`, `PromptIgnoresCase` and `MixedCaseStyle` state its meaning |
| GenerateAudio.NonBlankKeeps | mcp-server/src/tools/generate-audio.ts:170 | `.filter(s => s.trim())` keeps exactly the non-blank pieces (as members). `NonBlankAppend` and `NonBlankSingle` fix order and multiplicity |
| GenerateAudio.NonBlank | mcp-server/src/tools/generate-audio.ts:170 | The filter. `NonBlankKeeps`, `NonBlankAppend` and `NonBlankSingle` state its meaning |
| GenerateAudio.NonBlankAppend | mcp-server/src/tools/generate-audio.ts:170 | The filter keeps order: filtering a concatenation concatenates the two filtered parts |
| GenerateAudio.NonBlankSingle | mcp-server/src/tools/generate-audio.ts:170 | One piece is kept exactly when it is not blank after `trim()` |
| GenerateAudio.SentencesArePieces | mcp-server/src/tools/generate-audio.ts:170 | Every sentence is a non-blank piece between terminator runs, and every such piece is a sentence. No sentence holds a terminator. `SentencesOfScript` fixes order and multiplicity |
| GenerateAudio.Sentences | mcp-server/src/tools/generate-audio.ts:170 | The sentences of a script. `SentencesArePieces` and `SentencesOfScript` state its meaning |
| GenerateAudio.SentencesOfScript | mcp-server/src/tools/generate-audio.ts:170 | A script of pieces between runs of `.`, `!` and `?` has exactly its non-blank pieces as sentences, in script order, one per piece (not deduplicated) |
| GenerateAudio.Measure | mcp-server/src/tools/generate-audio.ts:173-174 | A phrase's text is the trimmed sentence and its word count that of `trim().split(/\s+/)`, at least 1 |
| GenerateAudio.MeasureAll | mcp-server/src/tools/generate-audio.ts:172-174 | One phrase per sentence, in order |
| GenerateAudio.MeasureOfWords | mcp-server/src/tools/generate-audio.ts:173-174 | A sentence of non-empty words between runs of white space is its own trimmed text, and its word count is the number of those words |
| GenerateAudio.CreateNarrationTimecodes | mcp-server/src/tools/generate-audio.ts:163-186 | The method computes `Timecodes(script)` |
| GenerateAudio.TimePhrases | mcp-server/src/tools/generate-audio.ts:169-183 | The `currentTime` loop builds exactly the segment sequence starting at 0 |
| GenerateAudio.SegmentsStep | mcp-server/src/tools/generate-audio.ts:176-182 | One step of the loop: a segment at the running time, then the rest from time + duration + 0.5 |
| GenerateAudio.SegmentsShape | mcp-server/src/tools/generate-audio.ts:172-183 | One segment per phrase, carrying its text and lasting its words / 2.5. The first starts at the start time and each next one starts 0.5 s after the previous ends |
| GenerateAudio.SegmentsStartFrom | mcp-server/src/tools/generate-audio.ts:182 | No segment starts before the start time |
| GenerateAudio.SegmentsDisjoint | mcp-server/src/tools/generate-audio.ts:176-182 | Segments have positive length and each ends before any later one starts |
| GenerateAudio.SegmentsFrom | mcp-server/src/tools/generate-audio.ts:172-183 | The timing loop as a value. `SegmentsShape`, `SegmentsStep`, `SegmentsStartFrom` and `SegmentsDisjoint` state its meaning |
| GenerateAudio.TimecodesOfScript | mcp-server/src/tools/generate-audio.ts:163-186 | A script's timecodes: one per sentence, in order, each lasting words / 2.5. The first starts at 0, each next 0.5 s after the previous ends, and none overlaps another |
| GenerateAudio.TimecodeTexts | mcp-server/src/tools/generate-audio.ts:179 | Each timecode's text is its sentence trimmed: never empty, never holding a terminator |
| GenerateAudio.BlankScript | mcp-server/src/tools/generate-audio.ts:170 | An empty script and `...` have no timecodes |
| GenerateAudio.Timecodes | mcp-server/src/tools/generate-audio.ts:163-186 | `createNarrationTimecodes` as a value. `TimecodesOfScript`, `TimecodeTexts` and `BlankScript` state its meaning |
| GenerateAudio.Headers | mcp-server/src/tools/generate-audio.ts:64-72 | The headers are Authorization `Bearer <key>` and JSON content type, plus `X-Group-Id` exactly when a non-empty group id is set |
| GenerateAudio.BuildHeaders | mcp-server/src/tools/generate-audio.ts:64-72 | The dictionary filled in step by step equals `Headers` |
| GenerateAudio.GenerateMusic | mcp-server/src/tools/generate-audio.ts:50-96 | The method computes `MusicOutcome` |
| GenerateAudio.GenerateNarration | mcp-server/src/tools/generate-audio.ts:98-144 | The method computes `NarrationOutcome` |
| GenerateAudio.OutcomeMeaning | mcp-server/src/tools/generate-audio.ts:54-95 | Music fails with `MINIMAX_API_KEY must be set` exactly when the key is unset or empty. Success means MiniMax returned the URL for the music request and the download succeeded, with the requested duration and a `.mp3` file in the temp directory. Conversely, with the key set, a returned URL and a successful download give success |
| GenerateAudio.NarrationOutcomeMeaning | mcp-server/src/tools/generate-audio.ts:102-143 | The same for narration and the speech request, both directions |
| GenerateAudio.MusicOutcome | mcp-server/src/tools/generate-audio.ts:50-96 | `generateMusic`'s result. `OutcomeMeaning` and `GroupIdHeader` state its meaning |
| GenerateAudio.NarrationOutcome | mcp-server/src/tools/generate-audio.ts:98-144 | `generateNarration`'s result. `NarrationOutcomeMeaning` and `NarrationTimecodesFromScript` state its meaning |
| GenerateAudio.AudioFilePathShape | mcp-server/src/tools/generate-audio.ts:193-195 | A saved audio file lies under the temp directory and ends in `.mp3` |
| GenerateAudio.NarrationTimecodesFromScript | mcp-server/src/tools/generate-audio.ts:137 | Narration timecodes depend on the script alone, not on MiniMax, the download or the clock |
| GenerateAudio.GroupIdHeader | mcp-server/src/tools/generate-audio.ts:70-72 | Both requests carry `X-Group-Id` exactly when a group id is set |
| GenerateAudio.GenerateAudioAssets | mcp-server/src/tools/generate-audio.ts:27-48 | The method computes `AudioOutcome`, whose beats are those of `detectBeats` as written (`DetectBeats`), and issues exactly the requests `AudioRequests` lists |
| GenerateAudio.AudioNeedsKey | mcp-server/src/tools/generate-audio.ts:33 | Without a key nothing is requested and the call fails with the key message |
| GenerateAudio.AudioOrder | mcp-server/src/tools/generate-audio.ts:33-47 | Music is requested first, and narration (with the script) only after music succeeded. A success carries the two assets and the beats of `detectBeats` as written (`BeatChain`) on the music file, which are never empty. A music failure is the call's failure |
| GenerateAudio.AudioOutcome | mcp-server/src/tools/generate-audio.ts:27-48 | `generateAudio`'s result. `AudioOrder` and `AudioNeedsKey` state its meaning |
| GenerateAudio.AudioRequests | mcp-server/src/tools/generate-audio.ts:27-48 | The MiniMax requests in order. `AudioOrder` and `AudioNeedsKey` state them |
| BeatDetection.ParseEach | mcp-server/src/utils/beat-detection.ts:61 | Each line is read with `parseFloat`, in order |
| BeatDetection.KeepPositive | mcp-server/src/utils/beat-detection.ts:62 | Only positive, non-NaN numbers survive, and the result is no longer than the input |
| BeatDetection.KeepPositiveMembers | mcp-server/src/utils/beat-detection.ts:62 | A number is in the result exactly when it is in the input and positive (not NaN, above 0) |
| BeatDetection.KeepPositiveAppend | mcp-server/src/utils/beat-detection.ts:62 | The filter keeps order: filtering a concatenation concatenates the two filtered parts |
| BeatDetection.KeepPositiveSingle | mcp-server/src/utils/beat-detection.ts:62 | One number is kept exactly when it is positive |
| BeatDetection.AubioLines | mcp-server/src/utils/beat-detection.ts:59-60 | The trimmed output split at line breaks. `LinesOfNumeralOutput` states what it gives |
| BeatDetection.AubioBeats | mcp-server/src/utils/beat-detection.ts:58-62 | A number is an aubio beat exactly when it is positive and some line of the trimmed, newline-split output reads as it under `parseFloat` |
| BeatDetection.AubioBeatsOfLines | mcp-server/src/utils/beat-detection.ts:58-62 | An output of decimal numerals (`w` or `w.f`), one per line, is read back as exactly its positive values, in order |
| BeatDetection.LinesOfNumeralOutput | mcp-server/src/utils/beat-detection.ts:59-60 | Trimming and splitting such an output gives back its numeral lines |
| BeatDetection.ParseNumeralLines | mcp-server/src/utils/beat-detection.ts:61 | Each numeral line, with or without a fractional part, parses to its value |
| BeatDetection.AubioBeatsOfEmpty | mcp-server/src/utils/beat-detection.ts:58-62 | Empty aubio output yields no beats |
| BeatDetection.SilenceCapture | mcp-server/src/utils/beat-detection.ts:85 | A capture at the head is non-empty and lies inside the text after the key |
| BeatDetection.SilenceCapturesUnfold | mcp-server/src/utils/beat-detection.ts:85-89 | A global search takes a match at the head and resumes after it; otherwise it moves on one character |
| BeatDetection.SilenceCaptures | mcp-server/src/utils/beat-detection.ts:85-89 | The global regex search. `SilenceCapturesUnfold`, `SilenceCapturesSkip`, `SilenceCapturesOfLog`, `SilenceCapturesOfLine` and `NewlineSkipped` state its meaning |
| BeatDetection.SilenceCapturesSkip | mcp-server/src/utils/beat-detection.ts:85-89 | Text at no position of which a match starts is passed over: the search finds in `a + t` exactly what it finds in `t` |
| BeatDetection.NoMatchWithoutKey | mcp-server/src/utils/beat-detection.ts:85 | The pattern cannot cross a line break: where a line does not hold the key at a position, no match starts there, whatever follows the line |
| BeatDetection.SilenceEnds | mcp-server/src/utils/beat-detection.ts:85-91 | The captures read with `parseFloat`. `CollectSilenceEnds` computes it, and `FfmpegBeatsOfLog` reads logs back through it |
| BeatDetection.CollectSilenceEnds | mcp-server/src/utils/beat-detection.ts:85-91 | The `exec` loop collects, in order, every `silence_end` capture read with `parseFloat` |
| BeatDetection.ExecMergingStderr | mcp-server/src/utils/beat-detection.ts:80-82 | With `2>&1`, nothing reaches `stderr` |
| BeatDetection.FfmpegAsWrittenFindsNothing | mcp-server/src/utils/beat-detection.ts:80-91 | As written, the ffmpeg strategy yields no beat whatever ffmpeg prints |
| BeatDetection.FfmpegBeatsAsWritten | mcp-server/src/utils/beat-detection.ts:80-91 | The ffmpeg strategy as written. `FfmpegAsWrittenFindsNothing` states that it finds nothing |
| BeatDetection.FfmpegBeats | mcp-server/src/utils/beat-detection.ts:80-91 | The ffmpeg strategy reading the merged log. `FfmpegBeatsOfLog` states its meaning |
| BeatDetection.SilenceCapturesOfLog | mcp-server/src/utils/beat-detection.ts:85-91 | A log of well-formed lines yields the numerals they name, in order of appearance. A line is any text, `silence_end: N` with `N` a decimal numeral with or without a fractional part, and any text that does not start with a digit or a dot. The key occurs nowhere else in the line, so the filter tag before it and the silence duration after it are allowed |
| BeatDetection.SilenceCapturesOfLine | mcp-server/src/utils/beat-detection.ts:85-89 | A well-formed line and its line break yield exactly the silence end the line names, and the search goes on with the rest of the log |
| BeatDetection.TextBeforeSkipped | mcp-server/src/utils/beat-detection.ts:85-89 | The search passes over the text before the key without a match |
| BeatDetection.TextAfterSkipped | mcp-server/src/utils/beat-detection.ts:85-89 | The search passes over the text after the silence end without a match |
| BeatDetection.SilenceCapturesOfKey | mcp-server/src/utils/beat-detection.ts:85 | `silence_end: d` with `d` made of digits and dots, followed by a character that cannot continue a number, is captured as `d`, and the search resumes right after it |
| BeatDetection.BareLineWellFormed | mcp-server/src/utils/beat-detection.ts:85 | A bare `silence_end: N` line is well formed: the key occurs in it only at its start |
| BeatDetection.NewlineSkipped | mcp-server/src/utils/beat-detection.ts:85 | A line break never starts a match |
| BeatDetection.FfmpegBeatsOfLog | mcp-server/src/utils/beat-detection.ts:85-91 | The ffmpeg strategy reading the merged log gives back the silence end of every well-formed line, fractional ones included, in order. Text is allowed before the key and after the number, such as the filter tag and the silence duration |
| BeatDetection.Ceil | mcp-server/src/utils/beat-detection.ts:103 | `ceil(x)` is the least integer at or above `x` |
| BeatDetection.GridCountThreshold | mcp-server/src/utils/beat-detection.ts:103 | Step `k` is taken exactly when `k * interval < duration` |
| BeatDetection.StepTimeIsProduct | mcp-server/src/utils/beat-detection.ts:103 | After `k` additions of the interval, the time is `k * interval` |
| BeatDetection.GridPrefix | mcp-server/src/utils/beat-detection.ts:103-105 | The first `n` grid beats number `n` |
| BeatDetection.GridPrefixAt | mcp-server/src/utils/beat-detection.ts:103-105 | Beat `k` is the time after `k` steps, rounded to two decimals |
| BeatDetection.HeuristicBeatsShape | mcp-server/src/utils/beat-detection.ts:99-108 | Beat `k` exists exactly when `k * 60 / bpm < duration`, and is that time rounded to two decimals |
| BeatDetection.GenerateHeuristicBeats | mcp-server/src/utils/beat-detection.ts:99-108 | The `time += interval` loop builds exactly `HeuristicBeats` |
| BeatDetection.HeuristicBeats | mcp-server/src/utils/beat-detection.ts:99-108 | The beat grid. `HeuristicBeatsShape` states its meaning |
| BeatDetection.DefaultGrid | mcp-server/src/utils/beat-detection.ts:40 | The fallback grid has 120 beats, beat `k` at `k / 2`, from 0 to 59.5 |
| BeatDetection.HalfSecondBeat | mcp-server/src/utils/beat-detection.ts:103-104 | Beat `k` of the half-second grid is `k / 2` |
| BeatDetection.DefaultGridCount | mcp-server/src/utils/beat-detection.ts:40 | 60 s at 0.5 s per beat is 120 steps |
| BeatDetection.RoundHalfStep | mcp-server/src/utils/beat-detection.ts:104 | `toFixed(2)` keeps half-second multiples exact |
| BeatDetection.BeatChain | mcp-server/src/utils/beat-detection.ts:13-41 | `detectBeats` as written (ffmpeg step reading `stderr`) never returns an empty list |
| BeatDetection.Grid | mcp-server/src/utils/beat-detection.ts:40 | The 120 BPM grid over 60 s: 120 beats, beat `k` at `k / 2` |
| BeatDetection.DetectBeats | mcp-server/src/utils/beat-detection.ts:13-41 | The try-next chain, with the ffmpeg step reading `stderr` of the exec result, computes `BeatChain` |
| BeatDetection.ChainAubioOrGrid | mcp-server/src/utils/beat-detection.ts:13-94 | As written, the result is the aubio beats when there are any and otherwise the 120 BPM grid, whatever ffmpeg prints |
| BeatDetection.ChainFallback | mcp-server/src/utils/beat-detection.ts:27-40 | When aubio is unavailable or finds nothing, the result is the 120-beat half-second grid, whatever ffmpeg prints |
| BeatDetection.ChainPrefersAubio | mcp-server/src/utils/beat-detection.ts:18-22 | Aubio beats win whatever ffmpeg would report, in the chain as written and as intended |
| BeatDetection.BeatChainIntended | mcp-server/src/utils/beat-detection.ts:13-41 | The chain with the ffmpeg step reading the merged log never returns an empty list |
| BeatDetection.IntendedChainReadsSilence | mcp-server/src/utils/beat-detection.ts:27-33 | In the intended chain, with aubio unavailable or empty, a non-empty log of well-formed lines gives back their silence ends, in order |
| BeatDetection.OneAndAHalf | mcp-server/src/utils/beat-detection.ts:90 | The numeral `1.5` has value 1.5 |
| BeatDetection.OneSilenceLog | mcp-server/src/utils/beat-detection.ts:85 | The log of the one bare line naming `1.5` is `silence_end: 1.5` and a line break |
| BeatDetection.SilenceLogDiscrepancy | mcp-server/src/utils/beat-detection.ts:80-91 | With no aubio and the log `silence_end: 1.5`, the chain as written gives the grid and the intended chain the single beat 1.5 |
| BeatDetection.DetectBpm | mcp-server/src/utils/beat-detection.ts:113-127 | The tempo is always positive; when the trimmed `aubio tempo` output parses to a positive number, that number is the tempo, and otherwise it is 120 |
| BeatDetection.DetectBpmReadsTempo | mcp-server/src/utils/beat-detection.ts:116-120 | A printed positive tempo, a decimal numeral with or without a fractional part (`128.21`), is returned as it reads |
| BeatDetection.DetectBpmDefault | mcp-server/src/utils/beat-detection.ts:121-126 | A failed command or an empty output gives 120 |
| BeatDetection.DedupPrefix | mcp-server/src/utils/beat-detection.ts:166-171 | The survivors among the first `n` beats number at most `n` |
| BeatDetection.DropNearDuplicates | mcp-server/src/utils/beat-detection.ts:165-171 | The filter loop computes `Dedup` |
| BeatDetection.Dedup | mcp-server/src/utils/beat-detection.ts:165-171 | The near-duplicate filter. `DedupSelects`, `KeptIndicesShape`, `DedupKeepsFirst`, `DedupGaps`, `DedupIdempotent` and `AllKept` state its meaning |
| BeatDetection.KeptIndicesShape | mcp-server/src/utils/beat-detection.ts:167-171 | The survivors are the beats at strictly increasing indices. An index is among them exactly when it is first or more than 0.1 s after the raw beat before it |
| BeatDetection.DedupSelects | mcp-server/src/utils/beat-detection.ts:166-171 | The output is the order-preserving subsequence of exactly those beats that are first or more than 0.1 s after their raw predecessor |
| BeatDetection.DedupKeepsFirst | mcp-server/src/utils/beat-detection.ts:168 | The first beat always survives |
| BeatDetection.DedupGaps | mcp-server/src/utils/beat-detection.ts:168 | On ascending input, the survivors are more than 0.1 s apart |
| BeatDetection.DedupIdempotent | mcp-server/src/utils/beat-detection.ts:166-171 | On ascending input, filtering twice equals filtering once |
| BeatDetection.AllKept | mcp-server/src/utils/beat-detection.ts:168 | A sequence whose neighbours are more than 0.1 s apart passes unchanged |

## Left out

- Axios requests are inputs, not code: Tabstack, Clearbit, Brandfetch, the common-path probes, the logo download, MiniMax and the audio download. So are the Playwright screenshot, `sharp` statistics and file writes. Timeouts and the request bodies sent to Tabstack are not modelled.
- In `extractColorsFromScreenshot` (color-extraction.ts:13-34), the temporary PNG, `sharp(...).stats()` and its cleanup are replaced by the `Shot` value. That value gives the dominant colour `sharp` reports, or the error. The palette is then generated from that colour by `GeneratePaletteFromDominant`, as in the code.
- `new URL(url)` is an input, `Option<UrlParts>` (`None` when it throws). The model does not parse URLs, so `hostname` and `origin` are taken as given. `extractUrlContent` and `extractBrandingSimple` parse the same URL, so one value feeds both.
- Program runs are inputs: `which aubio`, `which ffmpeg`, `aubio beat`, `aubio tempo` and `ffmpeg` are given by what they print (`None` when the command fails or the tool is missing).
- `process.env` values are inputs, and so are `os.tmpdir()` and `Date.now()`, which are given as the clock readings of the two downloads. `path.join` is modelled as `dir + "/" + name`, so its normalisation of `..` and duplicate slashes is left out.
- `REMOTION_PROJECT_PATH` and `fs.mkdir` are left out. The renderer-relative path `images/<file>` is what the code returns, and it is modelled exactly.
- Logging (`console.error`) is left out.
- The energy computation in `detectBeatsSimple` is left out: Float32 samples, square roots and float thresholds. Only its near-duplicate filter is modelled, on the resulting beat times.
- Floating-point rounding is not modelled. Times are exact reals, so `k * 60 / bpm` and `toFixed(2)` of it are exact. The model cannot show an IEEE rounding artefact, such as a time that falls just short of the duration.
- `toLowerCase` and `toUpperCase` map ASCII letters only. Non-ASCII case folding is left out.
- `parseFloat` is modelled for decimal literals with optional fraction, exponent, sign and `Infinity`. Values beyond 2^53 and their loss of precision are left out.
- `MusicOutcome` / `NarrationOutcome`: a reply without `audio_url` (`undefined`) is not distinguished from a request that throws. Both are `None`, and the download of an `undefined` URL is not modelled.
- `MusicOutcome` / `NarrationOutcome`: a rejected MiniMax request or a failed download propagates the axios error, whose message and status depend on the reply. The model replaces it by the fixed errors `RequestFailed` and `DownloadFailed`, so the error's content is not modelled.
- `GenerateMusic`: the duration is an integer, so the text of non-integer durations in the prompt is left out.
- `GenerateHeuristicBeats`: requires a positive tempo. The only caller passes 120. For a zero tempo the source yields `[0]`, and for a negative one its loop never ends.
- `ExtractUrl.BrandfetchSrc`: a truthy `src` that is not a string (a number, say) is not modelled. Only a non-empty string is taken.
- `ExtractWithTabstack`: a reply that is truthy but lacks `title` or `description` is not modelled. The reply is either a full `Content` or falsy, and content lookups with a missing field or inherited keys (`toString`) are left out.
- `BasePrompt`: prototype keys such as `constructor` in the style table are left out.
- `extractFontFromCss` is never called within the source, and is modelled as a standalone rule.
- `BeatChainIntended`: the chain with the ffmpeg step corrected is stated and proved beside the code, but `DetectBeats` and the `generateAudio` model use the chain as written, whose ffmpeg step finds nothing.
- Concurrency: the model is sequential, and the code awaits each step in turn.

## Findings

| source | as written | input that shows it | evidently intended | confidence | as-written member | corrected member |
|---|---|---|---|---|---|---|
| mcp-server/src/utils/beat-detection.ts:80-91 | The ffmpeg command ends in `2>&1`, which sends ffmpeg's silencedetect log (written to stderr) to stdout. The code then searches `stderr` of the exec result, which is empty | A log `silence_end: 1.5\n` printed by ffmpeg yields no beats, so with aubio unavailable the grid is returned instead of the beat 1.5 | Search the merged output (stdout), so every `silence_end` value is found in order | not executed | BeatDetection.SilenceLogDiscrepancy | BeatDetection.IntendedChainReadsSilence |
