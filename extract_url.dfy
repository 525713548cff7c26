/**
 * The URL extraction tool: content from Tabstack, branding from cloud logo
 * services and a screenshot, a screenshot fallback for either, the logo file
 * saved for the renderer, and the pure rules it relies on (theme detection,
 * industry inference, placeholder content, the font rule, the logo file name).
 * Every network, browser, image-analysis and file-system result is a parameter.
 */
module ExtractUrl {
  import opened Wrappers
  import opened JsStrings
  import opened JsNumbers
  import opened ColorExtraction
  import opened JsArrays

  datatype Theme = Light | Dark

  datatype Section = Section(heading: string, text: string)

  datatype Content = Content(
    title: string,
    description: string,
    features: seq<string>,
    heroImage: string,
    sections: seq<Section>)

  /** `staticPath` is `None` while the property is absent. */
  datatype Logo = Logo(url: string, staticPath: Option<string>)

  datatype Branding = Branding(logo: Logo, colors: Palette, font: string, theme: Theme)

  datatype Metadata = Metadata(industry: string, domain: string)

  datatype Extracted = Extracted(content: Content, branding: Branding, metadata: Metadata)

  /** What `new URL(url)` yields when it does not throw. */
  datatype UrlParts = UrlParts(hostname: string, origin: string)

  /** The index of the first element at or after `from` satisfying `p`
      (the early-return search of a `for` loop or `Array.prototype.some`). */
  function FirstWhere<T>(xs: seq<T>, p: T -> bool, from: nat): (r: Option<nat>)
    requires from <= |xs|
    ensures r.Some? ==> from <= r.value < |xs| && p(xs[r.value])
    ensures r.Some? ==> forall j :: from <= j < r.value ==> !p(xs[j])
    ensures r.None? ==> forall j :: from <= j < |xs| ==> !p(xs[j])
    decreases |xs| - from
  {
    if from == |xs| then None
    else if p(xs[from]) then Some(from)
    else FirstWhere(xs, p, from + 1)
  }

  /* ---------------------------------------------------------------- theme */

  /** `(v >> 16) & 0xff`, `(v >> 8) & 0xff` and `v & 0xff`. The shifts act on the
      32-bit two's complement form of `v`, whose low 24 bits are those of `v`
      itself, so floor division and a non-negative remainder give the same bytes. */
  function PackedChannels(v: int): Rgb {
    Rgb((v / 65536) % 256, (v / 256) % 256, v % 256)
  }

  /** `parseInt(background.slice(1), 16)`, with NaN read as 0 (what `NaN >> k` gives). */
  function BackgroundValue(background: string): int {
    match ParseIntHex(if |background| >= 1 then background[1..] else [])
    case Some(n) => n
    case None => 0
  }

  /** `detectTheme`: light exactly when the background's luminance exceeds 128. */
  function DetectTheme(colors: Palette): Theme {
    ThemeOfValue(BackgroundValue(colors.background))
  }

  /** The theme of a packed `0xRRGGBB` value. */
  function ThemeOfValue(v: int): Theme {
    if Luminance1000(PackedChannels(v)) > 128000 then Light else Dark
  }

  /** Packing three bytes and unpacking them with the shifts gives them back. */
  lemma PackedChannelsOfBytes(r: Channel, g: Channel, b: Channel)
    ensures PackedChannels(r * 65536 + g * 256 + b) == Rgb(r, g, b)
  {
    var v := r * 65536 + g * 256 + b;
    assert v / 65536 == r;
    assert v / 256 == r * 256 + g;
    assert (r * 256 + g) % 256 == g;
  }

  lemma HexSlices(s: string)
    requires IsHexColor(s)
    ensures AllSatisfy(s[1..3], IsHexDigit) && AllSatisfy(s[3..5], IsHexDigit) && AllSatisfy(s[5..7], IsHexDigit)
    ensures AllSatisfy(s[3..7], IsHexDigit)
  {
    assert s[1..3] == s[1..][0..2] && s[3..5] == s[1..][2..4] && s[5..7] == s[1..][4..6];
    assert s[3..7] == s[1..][2..6];
  }

  /** The six digits of a hex colour, read as one number, pack its three channels. */
  lemma BackgroundValueOfHex(s: string)
    requires IsHexColor(s)
    ensures var c := ColorChannels(s); BackgroundValue(s) == c.r * 65536 + c.g * 256 + c.b
  {
    HexSlices(s);
    var ds := s[1..];
    ParseIntHexDigits(ds);
    assert ds == s[1..3] + s[3..7];
    assert s[3..7] == s[3..5] + s[5..7];
    HexValueAppend(s[3..5], s[5..7]);
    HexValueAppend(s[1..3], s[3..7]);
    assert Pow16(2) == 256;
    assert Pow16(4) == 65536;
  }

  /** For a well-formed background, the theme is decided by the luminance of the
      three channels its hex digits denote. */
  lemma DetectThemeOfHex(colors: Palette)
    requires IsHexColor(colors.background)
    ensures DetectTheme(colors) == (if Luminance1000(ColorChannels(colors.background)) > 128000 then Light else Dark)
  {
    var c := ColorChannels(colors.background);
    BackgroundValueOfHex(colors.background);
    ThemeOfPackedValue(BackgroundValue(colors.background), c);
  }

  lemma ThemeOfPackedValue(v: int, c: Rgb)
    requires v == c.r * 65536 + c.g * 256 + c.b
    ensures ThemeOfValue(v) == (if Luminance1000(c) > 128000 then Light else Dark)
  {
    PackedChannelsOfBytes(c.r, c.g, c.b);
  }

  /** A white background is light and a black one dark. */
  lemma ThemeOfWhiteAndBlack(colors: Palette)
    ensures colors.background == White ==> DetectTheme(colors) == Light
    ensures colors.background == Black ==> DetectTheme(colors) == Dark
  {
    WhiteAndBlack();
    if colors.background == White || colors.background == Black {
      DetectThemeOfHex(colors);
    }
  }

  /** A background that does not parse (NaN) reads as black, hence dark. */
  lemma UnparsableBackgroundIsDark(colors: Palette)
    requires ParseIntHex(if |colors.background| >= 1 then colors.background[1..] else []).None?
    ensures DetectTheme(colors) == Dark
  {
    assert BackgroundValue(colors.background) == 0;
    PackedChannelsOfBytes(0, 0, 0);
    assert Luminance1000(Rgb(0, 0, 0)) == 0;
  }

  /** For a palette derived from a dominant colour, the detected theme agrees with
      the background chosen for it. */
  lemma ThemeOfDerivedPalette(d: Rgb)
    ensures DetectTheme(GeneratePaletteFromDominant(d)) == (if Luminance1000(d) > 128000 then Light else Dark)
  {
    ThemeOfWhiteAndBlack(GeneratePaletteFromDominant(d));
  }

  /* ------------------------------------------------------------- industry */

  datatype Industry = Industry(name: string, keywords: seq<string>)

  /** The keyword table, in the order `Object.entries` visits it. */
  const Industries: seq<Industry> := [
    Industry("tech", ["software", "app", "platform", "cloud", "saas", "api", "developer"]),
    Industry("finance", ["bank", "payment", "finance", "invest", "trading", "crypto"]),
    Industry("healthcare", ["health", "medical", "doctor", "patient", "clinic", "hospital"]),
    Industry("ecommerce", ["shop", "store", "buy", "product", "marketplace", "retail"]),
    Industry("education", ["learn", "course", "education", "student", "training", "teach"]),
    Industry("marketing", ["marketing", "advertising", "campaign", "brand", "social media"]),
    Industry("gaming", ["game", "play", "gaming", "esports", "player"])
  ]

  const GeneralIndustry := "general"

  /** `keywords.some(keyword => text.includes(keyword))`. */
  predicate Mentions(text: string, keywords: seq<string>) {
    exists k :: 0 <= k < |keywords| && Contains(text, keywords[k])
  }

  function MentionedIn(text: string): Industry -> bool {
    (industry: Industry) => Mentions(text, industry.keywords)
  }

  /** The text searched: title and description, space-separated, lower-cased. */
  function IndustryText(title: string, description: string): string {
    ToLower(title + " " + description)
  }

  function InferIndustry(title: string, description: string): string {
    ChooseIndustry(Industries, IndustryText(title, description))
  }

  /** The name of the first industry of `table` that `text` mentions, else `general`. */
  function ChooseIndustry(table: seq<Industry>, text: string): string {
    match FirstWhere(table, MentionedIn(text), 0)
    case Some(i) => table[i].name
    case None => GeneralIndustry
  }

  /** `inferIndustry` returns the first industry, in table order, one of whose
      keywords occurs in the text, and `general` exactly when there is none. */
  lemma InferIndustryFirst(title: string, description: string)
    ensures var text := IndustryText(title, description);
      InferIndustry(title, description) == GeneralIndustry <==>
        forall i :: 0 <= i < |Industries| ==> !Mentions(text, Industries[i].keywords)
    ensures forall i :: 0 <= i < |Industries| ==>
      (Mentions(IndustryText(title, description), Industries[i].keywords) &&
       (forall j :: 0 <= j < i ==> !Mentions(IndustryText(title, description), Industries[j].keywords))) ==>
      InferIndustry(title, description) == Industries[i].name
  {
    IndustryNames();
    ChooseIndustryFirst(Industries, IndustryText(title, description));
  }

  lemma IndustryNames()
    ensures forall i :: 0 <= i < |Industries| ==> Industries[i].name != GeneralIndustry
  {
  }

  lemma ChooseIndustryFirst(table: seq<Industry>, text: string)
    requires forall i :: 0 <= i < |table| ==> table[i].name != GeneralIndustry
    ensures ChooseIndustry(table, text) == GeneralIndustry <==>
      forall i :: 0 <= i < |table| ==> !Mentions(text, table[i].keywords)
    ensures forall i :: 0 <= i < |table| ==>
      (Mentions(text, table[i].keywords) && (forall j :: 0 <= j < i ==> !Mentions(text, table[j].keywords))) ==>
      ChooseIndustry(table, text) == table[i].name
  {
    var r := FirstWhere(table, MentionedIn(text), 0);
    forall i | 0 <= i < |table| && Mentions(text, table[i].keywords) &&
        (forall j :: 0 <= j < i ==> !Mentions(text, table[j].keywords))
      ensures ChooseIndustry(table, text) == table[i].name
    {
      assert MentionedIn(text)(table[i]);
      assert forall j :: 0 <= j < i ==> !MentionedIn(text)(table[j]);
    }
    if r.Some? {
      assert MentionedIn(text)(table[r.value]);
    } else {
      forall i | 0 <= i < |table| ensures !Mentions(text, table[i].keywords) {
        assert !MentionedIn(text)(table[i]);
      }
    }
  }

  /** A text mentioning "software" is tech, whatever else it mentions. */
  lemma SoftwareIsTech(title: string, description: string)
    requires Contains(IndustryText(title, description), "software")
    ensures InferIndustry(title, description) == "tech"
  {
    InferIndustryFirst(title, description);
    assert Industries[0].keywords[0] == "software";
    assert Mentions(IndustryText(title, description), Industries[0].keywords);
  }

  /** An empty title and description give `general`: no keyword fits in one space. */
  lemma EmptyTextIsGeneral()
    ensures InferIndustry("", "") == GeneralIndustry
  {
    var text := IndustryText("", "");
    assert |text| == 1;
    forall i | 0 <= i < |Industries| ensures !Mentions(text, Industries[i].keywords) {
      forall k | 0 <= k < |Industries[i].keywords| ensures !Contains(text, Industries[i].keywords[k]) {
        assert |Industries[i].keywords[k]| >= 2;
      }
    }
    InferIndustryFirst("", "");
  }

  /* ---------------------------------------------------------- placeholder */

  /** `hostname.replace('www.', '').split('.')[0]`. */
  function DomainLabel(hostname: string): string {
    SplitOn(ReplaceFirst(hostname, "www.", ""), '.')[0]
  }

  /** `s.charAt(0).toUpperCase() + s.slice(1)`. */
  function Capitalize(s: string): (r: string)
    ensures |r| == |s|
    ensures s != [] ==> r[0] == UpperChar(s[0]) && r[1..] == s[1..]
  {
    if s == [] then [] else [UpperChar(s[0])] + s[1..]
  }

  const PlaceholderFeatures: seq<string> := ["Easy to use", "Fast performance", "Reliable support"]

  /** `extractContentFromScreenshot`: placeholder content built from the host name
      (the screenshot itself is not read). */
  function ExtractContentFromScreenshot(hostname: string): Content {
    var domain := DomainLabel(hostname);
    Content(
      Capitalize(domain),
      "Discover " + domain + " - Your solution for better productivity",
      PlaceholderFeatures,
      "",
      [])
  }

  lemma {:induction false} SplitOnHead(s: string, sep: char)
    ensures SplitOn(s, sep)[0] <= s
    ensures |SplitOn(s, sep)[0]| == |s| || s[|SplitOn(s, sep)[0]|] == sep
  {
    if s != [] {
      SplitOnHead(s[1..], sep);
    }
  }

  /** The placeholder's label is the longest dot-free prefix of the domain name with
      its first `www.` removed; the title capitalises it, the description embeds
      it, and there are exactly three features, no hero image and no sections. */
  lemma PlaceholderShape(hostname: string)
    ensures var stripped := ReplaceFirst(hostname, "www.", "");
      var domain := DomainLabel(hostname);
      && domain <= stripped
      && '.' !in domain
      && (|domain| == |stripped| || stripped[|domain|] == '.')
    ensures var c := ExtractContentFromScreenshot(hostname);
      var domain := DomainLabel(hostname);
      && |c.title| == |domain|
      && (domain != [] ==> c.title[0] == UpperChar(domain[0]) && c.title[1..] == domain[1..])
      && c.description == "Discover " + domain + " - Your solution for better productivity"
      && |c.features| == 3 && c.heroImage == [] && c.sections == []
  {
    SplitOnHead(ReplaceFirst(hostname, "www.", ""), '.');
  }

  /** The label of `www.<domain>.<rest>` is `<domain>`. */
  lemma LabelOfWwwHost(domain: string, rest: string)
    requires '.' !in domain
    ensures DomainLabel("www." + domain + "." + rest) == domain
  {
    ReplaceLeadingWww(domain + "." + rest);
    assert "www." + domain + "." + rest == "www." + (domain + "." + rest);
    SplitPieceThenSep(domain, rest, '.');
  }

  /** For `https://www.<domain>.<rest>`, the placeholder is titled with `<domain>`
      capitalised and describes `<domain>`; `www.acme.io` gives `Acme`. */
  lemma PlaceholderOfWwwHost(domain: string, rest: string)
    requires '.' !in domain
    ensures ExtractContentFromScreenshot("www." + domain + "." + rest).title == Capitalize(domain)
    ensures ExtractContentFromScreenshot("www." + domain + "." + rest).description ==
      "Discover " + domain + " - Your solution for better productivity"
    ensures domain == "acme" ==> ExtractContentFromScreenshot("www." + domain + "." + rest).title == "Acme"
  {
    LabelOfWwwHost(domain, rest);
    assert Capitalize("acme") == ['A'] + "cme";
  }

  /* ----------------------------------------------------------------- font */

  const FontFamilyKey := "font-family:"
  const DefaultFont := "system-ui, sans-serif"

  predicate IsSemicolon(c: char) { c == ';' }

  predicate IsQuote(c: char) { c == '\'' || c == '"' }

  /** The capture group of `/font-family:\s*([^;]+)/` for a match starting at the
      head of `u`, if one does. When only white space separates the colon from a
      `;` or the end, the greedy `\s*` gives back its last character to `[^;]+`. */
  function FontCapture(u: string): (r: Option<string>)
    ensures r.Some? ==> r.value != [] && forall i :: 0 <= i < |r.value| ==> r.value[i] != ';'
  {
    if !OccursAt(u, FontFamilyKey, 0) then None else FontValue(u[|FontFamilyKey|..])
  }

  /** `c` is captured at `i` in `v`: only white space before it, and it runs up to
      a `;` or to the end. */
  predicate CapturedAt(v: string, c: string, i: nat) {
    i + |c| <= |v| && AllSatisfy(v[..i], IsSpace) && v[i..i + |c|] == c
    && (i + |c| == |v| || v[i + |c|] == ';')
  }

  /** The capture of `\s*([^;]+)` at the head of `v`, the text after the key. There
      is none exactly when `v` is empty or starts with `;`. Otherwise the capture
      follows white space and runs, without a `;`, to the first `;` or the end:
      it starts right after the leading white space, or, when only white space
      precedes the `;` or the end, it is the last white-space character. */
  function FontValue(v: string): (r: Option<string>)
    ensures r.None? <==> v == [] || v[0] == ';'
    ensures r.Some? ==> r.value != [] && forall i :: 0 <= i < |r.value| ==> r.value[i] != ';'
    ensures r.Some? ==> exists i: nat :: CapturedAt(v, r.value, i)
    ensures r.Some? && IsSpace(r.value[0]) ==> |r.value| == 1
  {
    var w := SpanLength(v, IsSpace);
    if w < |v| && v[w] != ';' then
      var n := SpanLengthNot(v[w..], IsSemicolon);
      CapturedAfterSpace(v, w, n);
      Some(v[w..w + n])
    else if w > 0 then
      var c := [v[w - 1]];
      assert v[w - 1..w] == c;
      assert CapturedAt(v, c, w - 1);
      Some(c)
    else None
  }

  /** The capture that starts after the leading white space, at a character
      other than `;`. */
  lemma CapturedAfterSpace(v: string, w: nat, n: nat)
    requires w == SpanLength(v, IsSpace) && w < |v| && v[w] != ';'
    requires n == SpanLengthNot(v[w..], IsSemicolon)
    ensures var c := v[w..w + n];
      && c != [] && c[0] == v[w] && !IsSpace(c[0])
      && (forall i :: 0 <= i < |c| ==> c[i] != ';')
      && CapturedAt(v, c, w)
  {
    var c := v[w..w + n];
    assert v[w..][..n] == c;
    assert CapturedAt(v, c, w);
  }

  /** The capture of the leftmost match at or after `from`: the capture at the
      least position `j >= from` where one is found, and none when none is. */
  function FirstFontCapture(css: string, from: nat): (r: Option<string>)
    requires from <= |css|
    ensures r.Some? ==> r.value != [] && forall i :: 0 <= i < |r.value| ==> r.value[i] != ';'
    ensures r.Some? ==> exists j :: (from <= j <= |css| && FontCapture(css[j..]) == r &&
      (forall k :: from <= k < j ==> FontCapture(css[k..]).None?))
    ensures r.None? <==> forall j :: from <= j <= |css| ==> FontCapture(css[j..]).None?
    decreases |css| - from
  {
    var here := FontCapture(css[from..]);
    if here.Some? then here
    else if from == |css| then None
    else
      var r := FirstFontCapture(css, from + 1);
      assert r.None? ==> forall j :: from <= j <= |css| ==> FontCapture(css[j..]).None? by {
        if r.None? {
          forall j | from <= j <= |css| ensures FontCapture(css[j..]).None? {
            if j > from {
              assert from + 1 <= j;
            }
          }
        }
      }
      r
  }

  /** `extractFontFromCss`: the first `font-family:` value, quotes removed and
      trimmed, or the system font stack when there is none. */
  function ExtractFontFromCss(css: string): string {
    match FirstFontCapture(css, 0)
    case None => DefaultFont
    case Some(c) => Trim(RemoveAll(c, IsQuote))
  }

  lemma {:induction false} FirstFontCaptureNone(css: string, from: nat)
    requires from <= |css|
    requires forall j :: from <= j ==> !OccursAt(css, FontFamilyKey, j)
    ensures FirstFontCapture(css, from) == None
    decreases |css| - from
  {
    assert !OccursAt(css[from..], FontFamilyKey, 0) by {
      if OccursAt(css[from..], FontFamilyKey, 0) {
        assert css[from..][0..|FontFamilyKey|] == css[from..from + |FontFamilyKey|];
        assert OccursAt(css, FontFamilyKey, from);
      }
    }
    if from < |css| {
      FirstFontCaptureNone(css, from + 1);
    }
  }

  /** CSS without a `font-family:` declaration gives the default font. */
  lemma FontDefault(css: string)
    requires !Contains(css, FontFamilyKey)
    ensures ExtractFontFromCss(css) == DefaultFont
  {
    ContainsIff(css, FontFamilyKey);
    FirstFontCaptureNone(css, 0);
  }

  lemma FontCaptureOfDeclaration(value: string, rest: string)
    requires value != [] && !IsSpace(value[0]) && ';' !in value
    ensures FontCapture(FontFamilyKey + " " + value + ";" + rest) == Some(value)
  {
    var v := " " + (value + (";" + rest));
    AppendAssoc5(FontFamilyKey, " ", value, ";", rest);
    ValueAfterSpace(value, rest);
    FontCaptureAfterKey(v);
  }

  /** The capture of a match at the head is read from what follows the key. */
  lemma FontCaptureAfterKey(v: string)
    ensures FontCapture(FontFamilyKey + v) == FontValue(v)
  {
    OccursAtHead(FontFamilyKey, v);
    assert (FontFamilyKey + v)[|FontFamilyKey|..] == v;
  }

  lemma OccursAtHead(p: string, rest: string)
    ensures OccursAt(p + rest, p, 0)
  {
    assert (p + rest)[0..|p|] == p;
  }

  /** After the colon: one space, then the value up to its `;`. */
  lemma ValueAfterSpace(value: string, rest: string)
    requires value != [] && !IsSpace(value[0]) && ';' !in value
    ensures var v := " " + (value + (";" + rest));
      && SpanLength(v, IsSpace) == 1 && 1 < |v| && v[1] != ';'
      && SpanLengthNot(v[1..], IsSemicolon) == |value| && v[1..1 + |value|] == value
    ensures FontValue(" " + (value + (";" + rest))) == Some(value)
  {
    var tail := value + (";" + rest);
    var v := " " + tail;
    assert SpanLength(v, IsSpace) == 1 by {
      assert IsSpace(v[0]);
      assert v[1..] == tail;
      assert tail[0] == value[0];
    }
    assert v[1..] == tail;
    assert SpanLengthNot(tail, IsSemicolon) == |value| by {
      assert tail[|value|] == ';';
      assert forall i :: 0 <= i < |value| ==> tail[i] == value[i];
    }
    assert tail[..|value|] == value;
  }

  /** A declaration `font-family: <value>;` at the head of the CSS yields its value,
      quotes removed and trimmed. */
  lemma FontOfDeclaration(value: string, rest: string)
    requires value != [] && !IsSpace(value[0]) && ';' !in value
    ensures ExtractFontFromCss(FontFamilyKey + " " + value + ";" + rest) == Trim(RemoveAll(value, IsQuote))
  {
    var css := FontFamilyKey + " " + value + ";" + rest;
    FontCaptureOfDeclaration(value, rest);
    assert css[0..] == css;
    FirstCaptureAt(css, 0, value);
  }

  /** After the colon: any white space, then the value up to its `;`. */
  lemma ValueAfterSpaces(sp: string, value: string, rest: string)
    requires AllSatisfy(sp, IsSpace)
    requires value != [] && !IsSpace(value[0]) && ';' !in value
    ensures FontValue(sp + (value + (";" + rest))) == Some(value)
  {
    var tail := value + (";" + rest);
    var v := sp + tail;
    assert tail[0] == value[0];
    SpanLengthOfPrefix(sp, tail, IsSpace);
    assert v[|sp|..] == tail;
    assert (";" + rest)[0] == ';';
    assert NoneSatisfy(value, IsSemicolon) by {
      forall i | 0 <= i < |value| ensures value[i] != ';' {
        assert value[i] in value;
      }
    }
    SpanLengthNotOfPrefix(value, ";" + rest, IsSemicolon);
    var w := |sp|;
    assert w < |v| && v[w] == value[0] != ';';
    assert v[w..w + |value|] == tail[..|value|] == value;
  }

  /** Positions where no `f` stands capture nothing, so the search moves past them. */
  lemma NoCaptureWithoutF(css: string, k: nat)
    requires k < |css| && css[k] != 'f'
    ensures FontCapture(css[k..]).None?
  {
    assert css[k..][0] == css[k];
  }

  /** A declaration `font-family:` + white space + `<value>;` after text with no
      `f` in it (such as `a{`) yields its value, quotes removed and trimmed. */
  lemma FontOfDeclarationAfter(prefix: string, sp: string, value: string, rest: string)
    requires 'f' !in prefix
    requires AllSatisfy(sp, IsSpace)
    requires value != [] && !IsSpace(value[0]) && ';' !in value
    ensures ExtractFontFromCss(prefix + FontFamilyKey + sp + value + ";" + rest) == Trim(RemoveAll(value, IsQuote))
  {
    var css := prefix + FontFamilyKey + sp + value + ";" + rest;
    var at := |prefix|;
    var v := sp + (value + (";" + rest));
    assert css == prefix + (FontFamilyKey + v);
    assert css[at..] == FontFamilyKey + v;
    ValueAfterSpaces(sp, value, rest);
    FontCaptureAfterKey(v);
    forall k | 0 <= k < at ensures FontCapture(css[k..]).None? {
      assert css[k] == prefix[k];
      NoCaptureWithoutF(css, k);
    }
    FirstCaptureAt(css, at, value);
  }

  /** When nothing is captured before `at` and a value is captured at `at`, that
      value is the first capture. */
  lemma FirstCaptureAt(css: string, at: nat, c: string)
    requires at <= |css| && FontCapture(css[at..]) == Some(c)
    requires forall k :: 0 <= k < at ==> FontCapture(css[k..]).None?
    ensures FirstFontCapture(css, 0) == Some(c)
  {
    var r := FirstFontCapture(css, 0);
    var j :| 0 <= j <= |css| && FontCapture(css[j..]) == r &&
      forall k :: 0 <= k < j ==> FontCapture(css[k..]).None?;
    assert j == at;
  }

  /** A plain font name, unquoted and untrimmed, comes back unchanged. */
  lemma FontRoundTrip(name: string, rest: string)
    requires name != [] && !IsSpace(name[0]) && !IsSpace(name[|name| - 1])
    requires forall i :: 0 <= i < |name| ==> name[i] != ';' && !IsQuote(name[i])
    ensures ExtractFontFromCss(FontFamilyKey + " " + name + ";" + rest) == name
  {
    FontOfDeclaration(name, rest);
    RemoveAllNone(name, IsQuote);
    TrimNoop(name);
  }

  predicate IsUnclean(c: char) { IsQuote(c) || c == ';' }

  /** Removing the quotes from a capture, which has no `;`, leaves neither. */
  lemma {:induction false} RemoveQuotesClean(s: string)
    requires forall i :: 0 <= i < |s| ==> s[i] != ';'
    ensures NoneSatisfy(RemoveAll(s, IsQuote), IsUnclean)
  {
    if s != [] {
      RemoveQuotesClean(s[1..]);
      var head := if IsQuote(s[0]) then [] else [s[0]];
      var r := RemoveAll(s[1..], IsQuote);
      assert RemoveAll(s, IsQuote) == head + r;
      assert s[0] != ';';
      forall i | 0 <= i < |head + r| ensures !IsUnclean((head + r)[i]) {
        if i >= |head| {
          assert (head + r)[i] == r[i - |head|];
        }
      }
    }
  }

  lemma DefaultFontIsClean()
    ensures NoneSatisfy(DefaultFont, IsUnclean)
    ensures !IsSpace(DefaultFont[0]) && !IsSpace(DefaultFont[|DefaultFont| - 1])
  {
  }

  /** The font found never holds a quote or a `;`, and has no white space at either end. */
  lemma FontIsClean(css: string)
    ensures NoneSatisfy(ExtractFontFromCss(css), IsUnclean)
    ensures var font := ExtractFontFromCss(css);
      font == [] || (!IsSpace(font[0]) && !IsSpace(font[|font| - 1]))
  {
    var c := FirstFontCapture(css, 0);
    if c.None? {
      DefaultFontIsClean();
    } else {
      RemoveQuotesClean(c.value);
      TrimNoneSatisfy(RemoveAll(c.value, IsQuote), IsUnclean);
    }
  }

  /* ----------------------------------------------------------- logo chain */

  /** The status of a HEAD request, or the failure it threw. */
  datatype HeadReply = Status(code: int) | HeadFailed

  /** A JSON value as `axios` decodes a response body. */
  datatype Json =
    | JNull
    | JBool(b: bool)
    | JNumber(n: real)
    | JString(s: string)
    | JArray(items: seq<Json>)
    | JObject(fields: map<string, Json>)

  /** The network and file system as the tool sees them: HEAD statuses, decoded
      JSON bodies of GET requests (`None` when the request throws), the
      `content-type` header of a logo download (`""` when absent, `None` when the
      download throws), and whether the logo file can be written. */
  datatype Network = Network(
    head: string -> HeadReply,
    getJson: string -> Option<Json>,
    getImage: string -> Option<string>,
    canWrite: bool)

  function ClearbitUrl(domain: string): string { "https://logo.clearbit.com/" + domain }

  function BrandfetchUrl(domain: string): string { "https://api.brandfetch.io/v2/brands/" + domain }

  function FaviconUrl(domain: string): string {
    "https://www.google.com/s2/favicons?domain=" + domain + "&sz=256"
  }

  function CommonLogoPaths(origin: string): (paths: seq<string>)
    ensures |paths| == 6
  {
    [origin + "/logo.svg", origin + "/logo.png",
     origin + "/assets/logo.svg", origin + "/assets/logo.png",
     origin + "/images/logo.svg", origin + "/images/logo.png"]
  }

  function Answering(net: Network): string -> bool {
    (u: string) => net.head(u) == Status(200)
  }

  /** `j?.[key]` on an object. */
  function Member(j: Option<Json>, key: string): Option<Json> {
    if j.Some? && j.value.JObject? && key in j.value.fields then Some(j.value.fields[key]) else None
  }

  /** `j?.[0]` on an array. */
  function Head(j: Option<Json>): Option<Json> {
    if j.Some? && j.value.JArray? && |j.value.items| > 0 then Some(j.value.items[0]) else None
  }

  /** `data?.logos?.[0]?.formats?.[0]?.src` when it is a non-empty string. */
  function BrandfetchSrc(data: Option<Json>): Option<string> {
    var src := Member(Head(Member(Head(Member(data, "logos")), "formats")), "src");
    if src.Some? && src.value.JString? && src.value.s != [] then Some(src.value.s) else None
  }

  /** The logo `extractLogoFromCloud` settles on for `domain`, the host name
      without `www.`, and `origin`, the page's origin. */
  function LogoChoice(domain: string, origin: string, net: Network): string {
    if Answering(net)(ClearbitUrl(domain)) then ClearbitUrl(domain)
    else match BrandfetchSrc(net.getJson(BrandfetchUrl(domain)))
      case Some(src) => src
      case None =>
        match FirstWhere(CommonLogoPaths(origin), Answering(net), 0)
        case Some(i) => CommonLogoPaths(origin)[i]
        case None => FaviconUrl(domain)
  }

  /** `extractLogoFromCloud`: Clearbit, then Brandfetch, then the common paths in
      order, then the Google favicon; every failure falls through to the next. */
  method ExtractLogoFromCloud(domain: string, origin: string, net: Network) returns (logo: string)
    ensures logo == LogoChoice(domain, origin, net)
  {
    var clearbitUrl := ClearbitUrl(domain);
    if net.head(clearbitUrl) == Status(200) {
      return clearbitUrl;
    }
    var src := BrandfetchSrc(net.getJson(BrandfetchUrl(domain)));
    if src.Some? {
      return src.value;
    }
    var commonPaths := CommonLogoPaths(origin);
    for i := 0 to |commonPaths|
      invariant FirstWhere(commonPaths, Answering(net), i) == FirstWhere(commonPaths, Answering(net), 0)
    {
      if net.head(commonPaths[i]) == Status(200) {
        return commonPaths[i];
      }
    }
    return FaviconUrl(domain);
  }

  /** The logo chain in priority order: Clearbit on a 200, else a Brandfetch
      source, else the first common path answering 200, else the favicon service;
      the result is never empty. */
  lemma LogoChainOrder(domain: string, origin: string, net: Network)
    ensures net.head(ClearbitUrl(domain)) == Status(200) ==> LogoChoice(domain, origin, net) == ClearbitUrl(domain)
    ensures net.head(ClearbitUrl(domain)) != Status(200) && BrandfetchSrc(net.getJson(BrandfetchUrl(domain))).Some? ==>
      LogoChoice(domain, origin, net) == BrandfetchSrc(net.getJson(BrandfetchUrl(domain))).value
    ensures forall i :: 0 <= i < 6 ==>
      (&& net.head(ClearbitUrl(domain)) != Status(200)
       && BrandfetchSrc(net.getJson(BrandfetchUrl(domain))).None?
       && net.head(CommonLogoPaths(origin)[i]) == Status(200)
       && (forall j :: 0 <= j < i ==> net.head(CommonLogoPaths(origin)[j]) != Status(200))) ==>
      LogoChoice(domain, origin, net) == CommonLogoPaths(origin)[i]
    ensures (&& net.head(ClearbitUrl(domain)) != Status(200)
             && BrandfetchSrc(net.getJson(BrandfetchUrl(domain))).None?
             && (forall j :: 0 <= j < 6 ==> net.head(CommonLogoPaths(origin)[j]) != Status(200))) ==>
      LogoChoice(domain, origin, net) == FaviconUrl(domain)
    ensures LogoChoice(domain, origin, net) != []
  {
    var paths := CommonLogoPaths(origin);
    var found := FirstWhere(paths, Answering(net), 0);
    assert forall j :: 0 <= j < 6 ==> (Answering(net)(paths[j]) <==> net.head(paths[j]) == Status(200));
    if found.Some? {
      assert paths[found.value] != [];
    }
  }

  /** A Brandfetch body `{logos: [{formats: [{src}]}]}` yields `src` when it is not empty. */
  lemma BrandfetchSrcOfBody(src: string)
    ensures BrandfetchSrc(Some(JObject(map["logos" := JArray([JObject(map["formats" :=
      JArray([JObject(map["src" := JString(src)])])])])]))) == (if src != [] then Some(src) else None)
    ensures BrandfetchSrc(Some(JObject(map["logos" := JArray([])]))) == None
  {
  }

  /* ------------------------------------------------------------ logo file */

  /** What `[^a-z0-9.-]` matches. */
  predicate IsForeignChar(c: char) {
    !('a' <= c <= 'z' || '0' <= c <= '9' || c == '.' || c == '-')
  }

  function CleanDomain(domain: string): (clean: string)
    ensures forall i :: 0 <= i < |clean| ==> !IsForeignChar(clean[i])
  {
    RemoveAll(ReplaceFirst(domain, "www.", ""), IsForeignChar)
  }

  /** The file extension chosen from the `content-type` header, else from the URL. */
  function LogoExtension(contentType: string, logoUrl: string): (ext: string)
    ensures ext == "svg" || ext == "jpg" || ext == "png"
  {
    if Contains(contentType, "svg") then "svg"
    else if Contains(contentType, "jpeg") || Contains(contentType, "jpg") then "jpg"
    else if EndsWith(logoUrl, ".svg") then "svg"
    else if EndsWith(logoUrl, ".jpg") || EndsWith(logoUrl, ".jpeg") then "jpg"
    else "png"
  }

  /** `logo-${cleanDomain}.${ext}`. */
  function LogoFileName(domain: string, ext: string): string {
    "logo-" + CleanDomain(domain) + "." + ext
  }

  /** What `downloadLogoToPublic` returns: the saved file's path under `public/`,
      or `""` for an empty URL or any failure. */
  function LogoStaticPath(logoUrl: string, domain: string, net: Network): string {
    if logoUrl == [] then []
    else match net.getImage(logoUrl)
      case None => []
      case Some(contentType) =>
        if net.canWrite then "images/" + LogoFileName(domain, LogoExtension(contentType, logoUrl))
        else []
  }

  method DownloadLogoToPublic(logoUrl: string, domain: string, net: Network) returns (staticPath: string)
    ensures staticPath == LogoStaticPath(logoUrl, domain, net)
  {
    if logoUrl == [] {
      return [];
    }
    var reply := net.getImage(logoUrl);
    if reply.None? {
      return [];
    }
    var contentType := reply.value;
    var ext := "png";
    if Contains(contentType, "svg") {
      ext := "svg";
    } else if Contains(contentType, "jpeg") || Contains(contentType, "jpg") {
      ext := "jpg";
    } else if EndsWith(logoUrl, ".svg") {
      ext := "svg";
    } else if EndsWith(logoUrl, ".jpg") || EndsWith(logoUrl, ".jpeg") {
      ext := "jpg";
    }
    assert ext == LogoExtension(contentType, logoUrl);
    if !net.canWrite {
      return [];
    }
    var fileName := LogoFileName(domain, ext);
    return "images/" + fileName;
  }

  /** A content type naming svg or jpeg decides the extension whatever the URL says. */
  lemma ContentTypeWins(contentType: string, url1: string, url2: string)
    requires Contains(contentType, "svg") || Contains(contentType, "jpeg") || Contains(contentType, "jpg")
    ensures LogoExtension(contentType, url1) == LogoExtension(contentType, url2)
    ensures LogoExtension(contentType, url1) == (if Contains(contentType, "svg") then "svg" else "jpg")
  {
  }

  /** A string whose next-to-last character differs from that of `other` does
      not end with `other`. */
  lemma EndsWithDiffer(name: string, suffix: string, other: string)
    requires |suffix| >= 2 && |other| >= 2 && suffix[|suffix| - 2] != other[|other| - 2]
    ensures !EndsWith(name + suffix, other)
  {
    var s := name + suffix;
    if |other| <= |s| {
      assert s[|s| - |other|..][|other| - 2] == suffix[|suffix| - 2];
    }
  }

  /** Without a hint in the content type, the URL's suffix decides, and anything
      else is saved as png. */
  lemma UrlSuffixDecides(contentType: string, name: string)
    requires !Contains(contentType, "svg") && !Contains(contentType, "jpeg") && !Contains(contentType, "jpg")
    ensures LogoExtension(contentType, name + ".svg") == "svg"
    ensures LogoExtension(contentType, name + ".jpg") == "jpg"
    ensures LogoExtension(contentType, name + ".jpeg") == "jpg"
    ensures LogoExtension(contentType, name + ".png") == "png"
    ensures forall url :: !EndsWith(url, ".svg") && !EndsWith(url, ".jpg") && !EndsWith(url, ".jpeg") ==>
      LogoExtension(contentType, url) == "png"
  {
    assert (name + ".svg")[|name + ".svg"| - 4..] == ".svg";
    assert (name + ".jpg")[|name + ".jpg"| - 4..] == ".jpg";
    assert (name + ".jpeg")[|name + ".jpeg"| - 5..] == ".jpeg";
    EndsWithDiffer(name, ".jpg", ".svg");
    EndsWithDiffer(name, ".jpeg", ".svg");
    EndsWithDiffer(name, ".png", ".svg");
    EndsWithDiffer(name, ".png", ".jpg");
    EndsWithDiffer(name, ".png", ".jpeg");
  }

  /** The saved path is empty exactly for an empty URL or a failed download or
      write, and otherwise is `images/logo-<clean domain>.<svg|jpg|png>`. */
  lemma StaticPathShape(logoUrl: string, domain: string, net: Network)
    ensures LogoStaticPath(logoUrl, domain, net) == [] <==>
      logoUrl == [] || net.getImage(logoUrl).None? || !net.canWrite
    ensures LogoStaticPath(logoUrl, domain, net) != [] ==>
      exists ext :: (ext == "svg" || ext == "jpg" || ext == "png") &&
        LogoStaticPath(logoUrl, domain, net) == "images/" + LogoFileName(domain, ext)
    ensures LogoStaticPath(logoUrl, domain, net) != [] ==>
      LogoStaticPath(logoUrl, domain, net) ==
        "images/" + LogoFileName(domain, LogoExtension(net.getImage(logoUrl).value, logoUrl))
  {
    if LogoStaticPath(logoUrl, domain, net) != [] {
      var ext := LogoExtension(net.getImage(logoUrl).value, logoUrl);
      assert LogoStaticPath(logoUrl, domain, net) == "images/" + LogoFileName(domain, ext);
    }
  }

  /** A host name made of `[a-z0-9.-]` and free of `www.` is kept as it is, and a
      leading `www.` is dropped. */
  lemma CleanDomainOfHost(host: string)
    requires forall i :: 0 <= i < |host| ==> !IsForeignChar(host[i])
    requires !Contains(host, "www.")
    ensures CleanDomain(host) == host
    ensures CleanDomain("www." + host) == host
  {
    ReplaceLeadingWww(host);
    RemoveAllNone(host, IsForeignChar);
  }

  /* ------------------------------------------------------- orchestration */

  /** A Tabstack reply: the request threw, or it answered with `data`, which is
      `None` when the body is falsy. */
  datatype TabstackReply = PostFailed | PostData(data: Option<Content>)

  /** `TABSTACK_API_KEY` (`None` when unset) and the extraction endpoint's reply per page URL. */
  datatype Tabstack = Tabstack(apiKey: Option<string>, post: string -> TabstackReply)

  const TabstackKeyMissing := "TABSTACK_API_KEY not set"
  const TabstackRequestFailed := "Tabstack request failed"
  const InvalidUrl := "Invalid URL"

  /** `extractWithTabstack`: the key is demanded before any request is made. */
  function ExtractWithTabstack(url: string, tabstack: Tabstack): (r: Result<Option<Content>>)
    ensures r == Err(TabstackKeyMissing) <==> !Truthy(tabstack.apiKey)
    ensures r.Ok? <==> Truthy(tabstack.apiKey) && tabstack.post(url).PostData?
    ensures r.Ok? ==> r.value == tabstack.post(url).data
  {
    if !Truthy(tabstack.apiKey) then Err(TabstackKeyMissing)
    else match tabstack.post(url)
      case PostFailed => Err(TabstackRequestFailed)
      case PostData(data) => Ok(data)
  }

  /** The content strategy 1 leaves behind: a truthy Tabstack body, or nothing. */
  function TabstackContent(url: string, tabstack: Tabstack): Option<Content> {
    match ExtractWithTabstack(url, tabstack)
    case Ok(data) => data
    case Err(_) => None
  }

  /** A `takeScreenshot` call: the error it threw, or what the `sharp` statistics
      inside `extractColorsFromScreenshot` then give, the image's dominant colour or
      the error of the image analysis. */
  datatype Shot = ShotFailed(error: string) | Captured(dominant: Result<Rgb>)

  /** The palette `extractColorsFromScreenshot` resolves to, if both steps succeed:
      the one generated from the dominant colour. */
  function ShotColors(shot: Shot): Option<Palette> {
    if shot.Captured? && shot.dominant.Ok? then Some(GeneratePaletteFromDominant(shot.dominant.value)) else None
  }

  /** A screenshot that yields colours yields a well-formed palette whose primary
      colour is the image's dominant colour. */
  lemma ShotPalette(shot: Shot)
    requires ShotColors(shot).Some?
    ensures shot.Captured? && shot.dominant.Ok?
    ensures WellFormed(ShotColors(shot).value)
    ensures ColorChannels(ShotColors(shot).value.primary) == shot.dominant.value
  {
  }

  const CloudFont := "system-ui, -apple-system, sans-serif"
  const FallbackFont := "system-ui, sans-serif"

  /** The branding strategy 2 produces, or `None` when the screenshot or its
      colour analysis throws. */
  function BrandingSimple(parts: UrlParts, net: Network, shot: Shot): Option<Branding> {
    var logo := LogoChoice(ReplaceFirst(parts.hostname, "www.", ""), parts.origin, net);
    match ShotColors(shot)
    case None => None
    case Some(colors) => Some(Branding(Logo(logo, None), colors, CloudFont, DetectTheme(colors)))
  }

  /** `extractBrandingSimple`, with the screenshot and colour analysis as `shot`. */
  method ExtractBrandingSimple(parts: UrlParts, net: Network, shot: Shot) returns (branding: Option<Branding>)
    ensures branding == BrandingSimple(parts, net, shot)
  {
    var domain := ReplaceFirst(parts.hostname, "www.", "");
    var logoUrl := ExtractLogoFromCloud(domain, parts.origin, net);
    var colors := ShotColors(shot);
    if colors.None? {
      return None;
    }
    return Some(Branding(Logo(logoUrl, None), colors.value, CloudFont, DetectTheme(colors.value)));
  }

  /** The branding built from the fallback screenshot's colours. */
  function FallbackBranding(url: string, colors: Palette): Branding {
    Branding(Logo(url + "/favicon.ico", None), colors, FallbackFont, DetectTheme(colors))
  }

  /** Records a non-empty saved logo path as `staticPath`. */
  function WithStaticPath(branding: Branding, staticPath: string): Branding {
    if staticPath != [] then branding.(logo := branding.logo.(staticPath := Some(staticPath))) else branding
  }

  /** What `extractUrlContent(url)` resolves to, or the error it rejects with.
      `parts` is `new URL(url)` (`None` when it throws), `cloudShot` the screenshot
      taken for cloud branding and `fallbackShot` the one taken for the fallback. */
  function Extraction(url: string, parts: Option<UrlParts>, tabstack: Tabstack, net: Network,
                      cloudShot: Shot, fallbackShot: Shot): Result<Extracted>
  {
    if parts.None? then Err(InvalidUrl)
    else Assemble(url, parts.value.hostname, TabstackContent(url, tabstack),
                  BrandingSimple(parts.value, net, cloudShot), fallbackShot, net)
  }

  /** Strategy 3 and the final steps, given what strategies 1 and 2 produced. */
  function Assemble(url: string, domain: string, fromTabstack: Option<Content>, fromCloud: Option<Branding>,
                    fallbackShot: Shot, net: Network): Result<Extracted>
  {
    if (fromTabstack.None? || fromCloud.None?) && fallbackShot.ShotFailed? then Err(fallbackShot.error)
    else if fromCloud.None? && fallbackShot.dominant.Err? then Err(fallbackShot.dominant.error)
    else
      var content := if fromTabstack.Some? then fromTabstack.value else ExtractContentFromScreenshot(domain);
      var branding := if fromCloud.Some? then fromCloud.value else FallbackBranding(url, ShotColors(fallbackShot).value);
      var staticPath := LogoStaticPath(branding.logo.url, domain, net);
      Ok(Extracted(content, WithStaticPath(branding, staticPath),
                   Metadata(InferIndustry(content.title, content.description), domain)))
  }

  /** `extractUrlContent`: Tabstack content, then cloud branding, then one
      screenshot for whatever is still missing, then the industry and the saved
      logo. */
  method ExtractUrlContent(url: string, parts: Option<UrlParts>, tabstack: Tabstack, net: Network,
                           cloudShot: Shot, fallbackShot: Shot) returns (r: Result<Extracted>)
    ensures r == Extraction(url, parts, tabstack, net, cloudShot, fallbackShot)
  {

    if parts.None? {
      return Err(InvalidUrl);
    }
    var domain := parts.value.hostname;

    var content: Option<Content> := None;
    var reply := ExtractWithTabstack(url, tabstack);
    if reply.Ok? {
      content := reply.value;
    }
    assert content == TabstackContent(url, tabstack);

    var branding: Option<Branding> := ExtractBrandingSimple(parts.value, net, cloudShot);
    r := AssembleExtraction(url, domain, content, branding, fallbackShot, net);
  }

  /** The rest of `extractUrlContent` once strategies 1 and 2 have run: the
      fallback screenshot when either is missing, then the industry and the saved
      logo. */
  method AssembleExtraction(url: string, domain: string, fromTabstack: Option<Content>, fromCloud: Option<Branding>,
                            fallbackShot: Shot, net: Network) returns (r: Result<Extracted>)
    ensures r == Assemble(url, domain, fromTabstack, fromCloud, fallbackShot, net)
  {
    var content := fromTabstack;
    var branding := fromCloud;
    if content.None? || branding.None? {
      if fallbackShot.ShotFailed? {
        return Err(fallbackShot.error);
      }
      if content.None? {
        content := Some(ExtractContentFromScreenshot(domain));
      }
      if branding.None? {
        if fallbackShot.dominant.Err? {
          return Err(fallbackShot.dominant.error);
        }
        var colors := GeneratePaletteFromDominant(fallbackShot.dominant.value);
        branding := Some(Branding(Logo(url + "/favicon.ico", None), colors, FallbackFont, DetectTheme(colors)));
      }
    }
    ghost var chosen := branding.value;

    var industry := InferIndustry(content.value.title, content.value.description);

    var logoStaticPath := DownloadLogoToPublic(branding.value.logo.url, domain, net);
    if logoStaticPath != [] {
      branding := Some(branding.value.(logo := branding.value.logo.(staticPath := Some(logoStaticPath))));
    }
    assert branding.value == WithStaticPath(chosen, logoStaticPath);

    return Ok(Extracted(content.value, branding.value, Metadata(industry, domain)));
  }

  /** `staticPath` is set by `WithStaticPath` exactly when the path is non-empty;
      nothing else about the branding changes. */
  lemma WithStaticPathFacts(branding: Branding, staticPath: string)
    ensures var b := WithStaticPath(branding, staticPath);
      && b.logo.url == branding.logo.url
      && (b.logo.staticPath.Some? <==> staticPath != [] || branding.logo.staticPath.Some?)
      && (staticPath != [] ==> b.logo.staticPath == Some(staticPath))
      && b.(logo := b.logo.(staticPath := branding.logo.staticPath)) == branding
  {
  }

  /** The tool fails exactly when the URL does not parse, when a screenshot is
      needed and cannot be taken, or when fallback colours are needed and their
      analysis fails; a failing Tabstack or cloud strategy alone never fails it. */
  lemma ExtractionErrors(url: string, parts: Option<UrlParts>, tabstack: Tabstack, net: Network,
                         cloudShot: Shot, fallbackShot: Shot)
    ensures var r := Extraction(url, parts, tabstack, net, cloudShot, fallbackShot);
      r.Err? <==>
        || parts.None?
        || ((TabstackContent(url, tabstack).None? || ShotColors(cloudShot).None?) && fallbackShot.ShotFailed?)
        || (ShotColors(cloudShot).None? && ShotColors(fallbackShot).None?)
    ensures parts.Some? && TabstackContent(url, tabstack).Some? && ShotColors(cloudShot).Some? ==>
      Extraction(url, parts, tabstack, net, cloudShot, fallbackShot).Ok?
  {
  }

  /** Content from Tabstack is kept whenever Tabstack gave any; otherwise it is the
      placeholder for the host name. */
  lemma ExtractionContent(url: string, parts: Option<UrlParts>, tabstack: Tabstack, net: Network,
                          cloudShot: Shot, fallbackShot: Shot)
    requires Extraction(url, parts, tabstack, net, cloudShot, fallbackShot).Ok?
    ensures var e := Extraction(url, parts, tabstack, net, cloudShot, fallbackShot).value;
      e.content == (if TabstackContent(url, tabstack).Some? then TabstackContent(url, tabstack).value
                    else ExtractContentFromScreenshot(parts.value.hostname))
    ensures var e := Extraction(url, parts, tabstack, net, cloudShot, fallbackShot).value;
      e.metadata == Metadata(InferIndustry(e.content.title, e.content.description), parts.value.hostname)
  {
  }

  /** Cloud branding is kept whenever it succeeded; the fallback branding (the
      page's `/favicon.ico`, the plain system font) is built only when it did not.
      Either way the colours are a screenshot's and the theme is the one detected
      from them: light on a white background, dark on a black one. */
  lemma ExtractionBranding(url: string, parts: Option<UrlParts>, tabstack: Tabstack, net: Network,
                           cloudShot: Shot, fallbackShot: Shot)
    requires Extraction(url, parts, tabstack, net, cloudShot, fallbackShot).Ok?
    ensures var b := Extraction(url, parts, tabstack, net, cloudShot, fallbackShot).value.branding;
      var cloud := BrandingSimple(parts.value, net, cloudShot);
      cloud.Some? ==> b.(logo := b.logo.(staticPath := None)) == cloud.value
    ensures var b := Extraction(url, parts, tabstack, net, cloudShot, fallbackShot).value.branding;
      BrandingSimple(parts.value, net, cloudShot).None? ==>
        && b.logo.url == url + "/favicon.ico"
        && b.font == FallbackFont
        && b.colors == ShotColors(fallbackShot).value
    ensures var b := Extraction(url, parts, tabstack, net, cloudShot, fallbackShot).value.branding;
      && b.colors == ShotColors(if ShotColors(cloudShot).Some? then cloudShot else fallbackShot).value
      && b.theme == DetectTheme(b.colors)
      && (b.colors.background == White ==> b.theme == Light)
      && (b.colors.background == Black ==> b.theme == Dark)
  {
    var cloud := BrandingSimple(parts.value, net, cloudShot);
    AssembledBranding(url, parts.value.hostname, TabstackContent(url, tabstack), cloud, fallbackShot, net);
    var b := Extraction(url, parts, tabstack, net, cloudShot, fallbackShot).value.branding;
    ThemeOfWhiteAndBlack(b.colors);
  }

  /** The branding `Assemble` returns is the chosen one, with at most its logo's
      static path set. */
  lemma AssembledBranding(url: string, domain: string, fromTabstack: Option<Content>, fromCloud: Option<Branding>,
                          fallbackShot: Shot, net: Network)
    requires Assemble(url, domain, fromTabstack, fromCloud, fallbackShot, net).Ok?
    ensures var b := Assemble(url, domain, fromTabstack, fromCloud, fallbackShot, net).value.branding;
      var chosen := if fromCloud.Some? then fromCloud.value else FallbackBranding(url, ShotColors(fallbackShot).value);
      b.(logo := b.logo.(staticPath := None)) == chosen.(logo := chosen.logo.(staticPath := None))
      && b.colors == chosen.colors && b.font == chosen.font && b.theme == chosen.theme
  {
  }

  /** `staticPath` is set exactly when the logo download returned a non-empty
      path, and then holds that path. */
  lemma ExtractionStaticPath(url: string, parts: Option<UrlParts>, tabstack: Tabstack, net: Network,
                             cloudShot: Shot, fallbackShot: Shot)
    requires Extraction(url, parts, tabstack, net, cloudShot, fallbackShot).Ok?
    ensures var logo := Extraction(url, parts, tabstack, net, cloudShot, fallbackShot).value.branding.logo;
      var saved := LogoStaticPath(logo.url, parts.value.hostname, net);
      && (logo.staticPath.Some? <==> saved != [])
      && (logo.staticPath.Some? ==> logo.staticPath.value == saved)
  {
    var p := parts.value;
    AssembleStaticPath(url, p.hostname, TabstackContent(url, tabstack), BrandingSimple(p, net, cloudShot), fallbackShot, net);
  }

  lemma AssembleStaticPath(url: string, domain: string, fromTabstack: Option<Content>, fromCloud: Option<Branding>,
                           fallbackShot: Shot, net: Network)
    requires fromCloud.Some? ==> fromCloud.value.logo.staticPath.None?
    requires Assemble(url, domain, fromTabstack, fromCloud, fallbackShot, net).Ok?
    ensures var logo := Assemble(url, domain, fromTabstack, fromCloud, fallbackShot, net).value.branding.logo;
      var saved := LogoStaticPath(logo.url, domain, net);
      && (logo.staticPath.Some? <==> saved != [])
      && (logo.staticPath.Some? ==> logo.staticPath.value == saved)
  {
    var branding := if fromCloud.Some? then fromCloud.value else FallbackBranding(url, ShotColors(fallbackShot).value);
    WithStaticPathFacts(branding, LogoStaticPath(branding.logo.url, domain, net));
  }

  /** When Tabstack and cloud branding both succeed no fallback screenshot is
      taken: the result does not depend on it. */
  lemma NoFallbackWhenBothSucceed(url: string, parts: Option<UrlParts>, tabstack: Tabstack, net: Network,
                                  cloudShot: Shot, shot1: Shot, shot2: Shot)
    requires TabstackContent(url, tabstack).Some? && ShotColors(cloudShot).Some?
    ensures Extraction(url, parts, tabstack, net, cloudShot, shot1) == Extraction(url, parts, tabstack, net, cloudShot, shot2)
  {
    if parts.Some? {
      var cloud := BrandingSimple(parts.value, net, cloudShot);
      assert cloud.Some?;
      AssembleIgnoresFallback(url, parts.value.hostname, TabstackContent(url, tabstack), cloud, shot1, shot2, net);
    }
  }

  /** With content and branding in hand, `Assemble` never looks at the fallback screenshot. */
  lemma AssembleIgnoresFallback(url: string, domain: string, fromTabstack: Option<Content>, fromCloud: Option<Branding>,
                                shot1: Shot, shot2: Shot, net: Network)
    requires fromTabstack.Some? && fromCloud.Some?
    ensures Assemble(url, domain, fromTabstack, fromCloud, shot1, net) == Assemble(url, domain, fromTabstack, fromCloud, shot2, net)
  {
  }
}
