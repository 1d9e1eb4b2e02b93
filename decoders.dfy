/**
 * Field codecs and status-line decoders of the receiver protocol
 * (decoders.py): the enumeration tables, the sampling-frequency, signal-type
 * and dB-level codecs, the tone, now-playing/menu, scroll-text (FL),
 * video-resolution (VTC), audio-status (AST) and video-status (VST) decoders.
 *
 * Where decoders.py prints, the model returns what it would print.
 */
module Decoders {
  import opened Py

  // ---------------------------------------------------------------------------
  // FL: scrolling text, sent as hex-encoded ASCII after a two-character marker

  /** The hex payload of an FL line: the "FL" prefix and a two-character marker are skipped. */
  function FlPayload(s: string): string {
    From(From(s, 2), 2)
  }

  /**
   * `decode_fl`: None for a line that is not an FL line; otherwise the payload
   * decoded by `bytes.fromhex` and then as ASCII, either of which may raise.
   */
  function DecodeFl(s: string): Result<Option<string>> {
    if !StartsWith(s, "FL") then Ok(None)
    else
      match FromHex(FlPayload(s))
      case Err(e) => Err(e)
      case Ok(bs) =>
        match AsciiDecode(bs)
        case Err(e) => Err(e)
        case Ok(text) => Ok(Some(text))
  }

  /** Only a line that does not start with "FL" gives None; an FL line gives text or raises. */
  lemma DecodeFlNone(s: string)
    ensures DecodeFl(s) == Ok(None) <==> !StartsWith(s, "FL")
  {
  }

  /**
   * For a payload without whitespace, an FL line decodes exactly when the
   * payload is an even number of hex digits whose bytes are all ASCII, and the
   * text has one character per hex pair: nothing is silently truncated.
   */
  lemma DecodeFlPayload(s: string)
    requires StartsWith(s, "FL") && NoSpace(FlPayload(s))
    ensures FromHex(FlPayload(s)).Ok? <==>
      |FlPayload(s)| % 2 == 0 && forall i :: 0 <= i < |FlPayload(s)| ==> IsHexDigit(FlPayload(s)[i])
    ensures DecodeFl(s).Ok? <==> FromHex(FlPayload(s)).Ok? && IsAscii(FromHex(FlPayload(s)).value)
    ensures DecodeFl(s).Ok? ==> DecodeFl(s).value.Some? && 2 * |DecodeFl(s).value.value| == |FlPayload(s)|
  {
    FromHexNoSpace(FlPayload(s));
  }

  /** Encoding ASCII text as upper-case hex behind any two-character marker decodes back to that text. */
  lemma DecodeFlRoundTrip(marker: string, text: string)
    requires |marker| == 2 && IsAsciiText(text)
    ensures DecodeFl("FL" + marker + ToHex(AsciiEncode(text))) == Ok(Some(text))
  {
    var bs := AsciiEncode(text);
    var s := "FL" + marker + ToHex(bs);
    assert FlPayload(s) == ToHex(bs);
    FromHexToHex(bs);
    var t := AsciiDecode(bs).value;
    assert t == text by {
      forall i | 0 <= i < |text| ensures t[i] == text[i] {
        assert t[i] as int == bs[i] == text[i] as int;
      }
    }
  }

  // ---------------------------------------------------------------------------
  // GDH / GBH / GCH / GHH / GEH: now-playing and menu information

  const InternetSourceMap: map<string, string> := map[
    "00" := "Intenet Radio",
    "01" := "Media Server",
    "06" := "SiriusXM",
    "07" := "Pandora",
    "10" := "AirPlay",
    "11" := "Digital Media Renderer (DMR)"
  ]

  const TrackFieldsMap: map<string, string> := map[
    "20" := "Track",
    "21" := "Artist",
    "22" := "Album",
    "23" := "Time",
    "24" := "Genre",
    "25" := "Chapter Number",
    "26" := "Format",
    "27" := "Bitrate",
    "28" := "Category",
    "29" := "Composer1",
    "30" := "Composer2",
    "31" := "Buffer",
    "32" := "Channel"
  ]

  const ScreenTypeMap: map<string, string> := map[
    "00" := "Message",
    "01" := "List",
    "02" := "Playing (Play)",
    "03" := "Playing (Pause)",
    "04" := "Playing (Fwd)",
    "05" := "Playing (Rev)",
    "06" := "Playing (Stop)",
    "99" := "Invalid"
  ]

  /** `decode_geh`: the text shown for a now-playing or menu line, None for any other line. */
  function DecodeGeh(s: string): Option<string> {
    if StartsWith(s, "GDH") then
      var fields := From(s, 3);
      Some("items " + Slice(fields, 0, 5) + " to " + Slice(fields, 5, 10) + " of total " + From(fields, 10))
    else if StartsWith(s, "GBH") then
      Some("max list number: " + From(s, 2))
    else if StartsWith(s, "GCH") then
      Some(Get(ScreenTypeMap, Slice(s, 3, 5), "unknown") + " - " + s)
    else if StartsWith(s, "GHH") then
      Some("source: " + Get(InternetSourceMap, From(s, 2), "unknown"))
    else if !StartsWith(s, "GEH") then
      None
    else
      var rest := From(s, 3);
      var code := Slice(rest, 3, 5);
      Some(Get(TrackFieldsMap, code, "unknown (" + code + ")") + ": " + From(rest, 5))
  }

  predicate IsMenuLine(s: string) {
    StartsWith(s, "GDH") || StartsWith(s, "GBH") || StartsWith(s, "GCH") || StartsWith(s, "GHH") || StartsWith(s, "GEH")
  }

  lemma DecodeGehNone(s: string)
    ensures DecodeGeh(s).None? <==> !IsMenuLine(s)
  {
  }

  /** A GDH payload is three fields of widths 5, 5 and the rest: "items A to B of total C". */
  lemma DecodeGdh(a: string, b: string, c: string)
    requires |a| == 5 && |b| == 5
    ensures DecodeGeh("GDH" + a + b + c) == Some("items " + a + " to " + b + " of total " + c)
  {
    var s := "GDH" + a + b + c;
    assert StartsWith(s, "GDH") && From(s, 3) == a + b + c;
    assert (a + b + c)[0..5] == a && (a + b + c)[5..10] == b && (a + b + c)[10..] == c;
  }

  /**
   * A GCH line names its screen type by the two characters after the prefix,
   * or "unknown", and the whole line follows the name.
   */
  lemma DecodeGch(code: string, rest: string)
    requires |code| == 2
    ensures DecodeGeh("GCH" + code + rest) ==
      Some((if code in ScreenTypeMap then ScreenTypeMap[code] else "unknown") + " - GCH" + code + rest)
  {
    var s := "GCH" + code + rest;
    assert s[..3] == "GCH" && s[..3][1] != "GDH"[1] && s[..3][1] != "GBH"[1];
    assert Slice(s, 3, 5) == code;
    var name := if code in ScreenTypeMap then ScreenTypeMap[code] else "unknown";
    assert name + " - " + s == name + " - GCH" + code + rest;
  }

  /**
   * A GEH line is a 2-character line number, a focus character, a 2-character
   * field-type code and the text; the code names the field, or is shown as
   * "unknown (code)".
   */
  lemma DecodeGehField(line: string, focus: char, code: string, info: string)
    requires |line| == 2 && |code| == 2
    ensures DecodeGeh("GEH" + line + [focus] + code + info) ==
      Some((if code in TrackFieldsMap then TrackFieldsMap[code] else "unknown (" + code + ")") + ": " + info)
  {
    var s := "GEH" + line + [focus] + code + info;
    assert s[..3] == "GEH" && s[..3] != "GDH" && s[..3] != "GBH" && s[..3] != "GCH" && s[..3] != "GHH";
    var rest := From(s, 3);
    assert rest == line + [focus] + code + info;
    assert Slice(rest, 3, 5) == code;
    assert From(rest, 5) == info;
  }

  /**
   * GBH and GHH take their field from offset 2, which still holds the 'H' of
   * the prefix: the list number is shown with that 'H' in front, and the
   * internet-source lookup can never succeed.
   */
  lemma DecodeGbhGhh(s: string)
    ensures StartsWith(s, "GBH") ==> DecodeGeh(s) == Some("max list number: H" + From(s, 3))
    ensures StartsWith(s, "GHH") ==> DecodeGeh(s) == Some("source: unknown")
  {
    if StartsWith(s, "GBH") {
      assert s[..3] == "GBH" && s[..3][1] != "GDH"[1];
      assert From(s, 2) == "H" + From(s, 3);
      assert "max list number: " + ("H" + From(s, 3)) == "max list number: H" + From(s, 3);
    }
    if StartsWith(s, "GHH") {
      assert s[..3] == "GHH";
      assert s[..3][1] != "GDH"[1] && s[..3][1] != "GBH"[1] && s[..3][1] != "GCH"[1];
      var key := From(s, 2);
      assert key[0] == 'H';
      assert InternetSourceMap.Keys == {"00", "01", "06", "07", "10", "11"};
      assert key !in InternetSourceMap by {
        assert key[0] != "00"[0] && key[0] != "10"[0];
      }
      assert Get(InternetSourceMap, key, "unknown") == "unknown";
      assert !StartsWith(s, "GDH") && !StartsWith(s, "GBH") && !StartsWith(s, "GCH");
      assert "source: " + "unknown" == "source: unknown";
    }
  }

  // ---------------------------------------------------------------------------
  // VTC: video resolution

  const VtcResolutionMap: map<string, string> := map[
    "00" := "AUTO Resolution",
    "01" := "PURE Resolution",
    "02" := "Reserved Resolution",
    "03" := "R480/576 Resolution",
    "04" := "720p Resolution",
    "05" := "1080i Resolution",
    "06" := "1080p Resolution",
    "07" := "1080/24p Resolution"
  ]

  /** `decode_vtc`: the resolution it prints; the line must start with "VTC" (an assert in the source). */
  function DecodeVtc(s: string): Result<string> {
    if !StartsWith(s, "VTC") then Err(AssertionError)
    else Ok(Get(VtcResolutionMap, From(s, 3), "unknown VTC resolution"))
  }

  lemma DecodeVtcCodes(code: string)
    ensures DecodeVtc("VTC" + code) == Ok(if code in VtcResolutionMap then VtcResolutionMap[code] else "unknown VTC resolution")
    ensures forall s :: !StartsWith(s, "VTC") ==> DecodeVtc(s) == Err(AssertionError)
  {
    assert StartsWith("VTC" + code, "VTC") && From("VTC" + code, 3) == code;
  }

  // ---------------------------------------------------------------------------
  // Sampling frequency and signal type

  const AifMap: map<string, string> := map[
    "00" := "32kHz",
    "01" := "44.1kHz",
    "02" := "48kHz",
    "03" := "88.2kHz",
    "04" := "96kHz",
    "05" := "176.4kHz",
    "06" := "192kHz",
    "07" := "---"
  ]

  /** `decode_aif`: the sampling-frequency label, "unknown" for any other code. */
  function DecodeAif(s: string): string {
    Get(AifMap, s, "unknown")
  }

  lemma DecodeAifTotal(s: string)
    ensures DecodeAif(s) != "unknown" <==> s in {"00", "01", "02", "03", "04", "05", "06", "07"}
    ensures s == "00" ==> DecodeAif(s) == "32kHz"
    ensures s == "06" ==> DecodeAif(s) == "192kHz"
    ensures s == "07" ==> DecodeAif(s) == "---"
  {
  }

  /** `decode_ais`: the input signal type; the two range tests compare strings lexicographically. */
  function DecodeAis(s: string): string {
    if LexLe("00", s) && LexLe(s, "02") then "ANALOG"
    else if s == "03" || s == "04" then "PCM"
    else if s == "05" then "DOLBY DIGITAL"
    else if s == "06" then "DTS"
    else if s == "07" then "DTS-ES Matrix"
    else if s == "08" then "DTS-ES Discrete"
    else if s == "09" then "DTS 96/24"
    else if s == "10" then "DTS 96/24 ES Matrix"
    else if s == "11" then "DTS 96/24 ES Discrete"
    else if s == "12" then "MPEG-2 AAC"
    else if s == "13" then "WMA9 Pro"
    else if s == "14" then "DSD->PCM"
    else if s == "15" then "HDMI THROUGH"
    else if s == "16" then "DOLBY DIGITAL PLUS"
    else if s == "17" then "DOLBY TrueHD"
    else if s == "18" then "DTS EXPRESS"
    else if s == "19" then "DTS-HD Master Audio"
    else if LexLe("20", s) && LexLe(s, "26") then "DTS-HD High Resolution"
    else if s == "27" then "DTS-HD Master Audio"
    else "unknown"
  }

  const AisCodes: set<string> := {
    "00", "01", "02", "03", "04", "05", "06", "07", "08", "09",
    "10", "11", "12", "13", "14", "15", "16", "17", "18", "19",
    "20", "21", "22", "23", "24", "25", "26", "27"}

  /** For two-character strings, `lo <= s` is decided by the first character, then the second. */
  lemma LexLeTwo(lo: string, s: string)
    requires |lo| == 2 && |s| == 2
    ensures LexLe(lo, s) <==> lo[0] < s[0] || (lo[0] == s[0] && lo[1] <= s[1])
  {
    if lo[0] == s[0] {
      var a, b := lo[1..], s[1..];
      assert LexLess(lo, s) == LexLess(a, b);
      assert a[1..] == [] && b[1..] == [];
      if lo[1] == s[1] { assert lo == s; }
    }
  }

  /** A string of fewer than two characters never lies between two two-character bounds that share their first character. */
  lemma LexBetweenShort(lo: string, s: string, hi: string)
    requires |lo| == 2 && |hi| == 2 && lo[0] == hi[0] && |s| < 2
    ensures !(LexLe(lo, s) && LexLe(s, hi))
  {
    if |s| == 1 {
      assert LexLess(lo, s) ==> lo[0] < s[0] by {
        assert s[1..] == [] && |lo[1..]| == 1;
        assert !LexLess(lo[1..], s[1..]);
      }
    }
  }

  lemma AisRanges(s: string)
    requires |s| <= 2
    ensures LexLe("00", s) && LexLe(s, "02") <==> s in {"00", "01", "02"}
    ensures LexLe("20", s) && LexLe(s, "26") <==> s in {"20", "21", "22", "23", "24", "25", "26"}
  {
    if |s| == 2 {
      LexLeTwo("00", s);
      LexLeTwo(s, "02");
      LexLeTwo("20", s);
      LexLeTwo(s, "26");
      if s[0] == '0' && '0' <= s[1] <= '2' {
        assert s == ['0', s[1]];
      }
      if s[0] == '2' && '0' <= s[1] <= '6' {
        assert s == ['2', s[1]];
      }
    } else {
      LexBetweenShort("00", s, "02");
      LexBetweenShort("20", s, "26");
    }
  }

  /**
   * On the codes of at most two characters that the AST decoder passes in,
   * "00" to "02" are ANALOG, "20" to "26" are DTS-HD High Resolution, and
   * everything outside the table is "unknown".
   */
  lemma DecodeAisCodes(s: string)
    requires |s| <= 2
    ensures DecodeAis(s) == "ANALOG" <==> s in {"00", "01", "02"}
    ensures DecodeAis(s) == "DTS-HD High Resolution" <==> s in {"20", "21", "22", "23", "24", "25", "26"}
    ensures DecodeAis(s) == "unknown" <==> s !in AisCodes
  {
    DecodeAisAnalog(s);
    DecodeAisHighResolution(s);
    DecodeAisUnknown(s);
  }

  lemma DecodeAisAnalog(s: string)
    requires |s| <= 2
    ensures DecodeAis(s) == "ANALOG" <==> s in {"00", "01", "02"}
  {
    AisRanges(s);
  }

  lemma DecodeAisHighResolution(s: string)
    requires |s| <= 2
    ensures DecodeAis(s) == "DTS-HD High Resolution" <==> s in {"20", "21", "22", "23", "24", "25", "26"}
  {
    AisRanges(s);
    if s in {"20", "21", "22", "23", "24", "25", "26"} {
      assert |s| == 2 && s[0] == '2';
      assert s != "03" && s != "04" && s != "05" && s != "06" && s != "07" && s != "08" && s != "09";
      assert s != "10" && s != "11" && s != "12" && s != "13" && s != "14" && s != "15" && s != "16";
      assert s != "17" && s != "18" && s != "19";
    }
  }

  lemma DecodeAisUnknown(s: string)
    requires |s| <= 2
    ensures DecodeAis(s) == "unknown" <==> s !in AisCodes
  {
    AisRanges(s);
  }

  /** The range tests are on strings, so a longer field that begins "00" or "01" is also ANALOG. */
  lemma DecodeAisLongField()
    ensures DecodeAis("01x") == "ANALOG"
    ensures DecodeAis("25x") == "DTS-HD High Resolution"
    ensures DecodeAis("021") == "unknown"
  {
    assert LexLess("01x", "02") by { assert LexLess("01x"[1..], "02"[1..]); }
    assert !LexLess("021", "02") by {
      assert "021"[1..] == "21" && "02"[1..] == "2";
      assert !LexLess("21"[1..], "2"[1..]);
    }
    assert LexLess("021", "20") by { assert "021"[0] == '0' && "20"[0] == '2'; }
    assert !LexLess("25x", "02");
    assert LexLess("20", "25x") by { assert LexLess("20"[1..], "25x"[1..]); }
    assert LexLess("25x", "26") by { assert LexLess("25x"[1..], "26"[1..]); }
  }

  // ---------------------------------------------------------------------------
  // Tone and dB level

  /** `db_level`: the level is 6 minus the field's integer value, written "<n>dB"; `int()` may raise. */
  function DbLevel(s: string): Result<string> {
    match ParseInt(s)
    case None => Err(ValueError)
    case Some(n) => Ok(IntToString(6 - n) + "dB")
  }

  lemma ParseTwoDigits(s: string)
    requires |s| == 2 && IsDigit(s[0]) && IsDigit(s[1])
    ensures ParseInt(s) == Some(10 * DigitValue(s[0]) + DigitValue(s[1]))
  {
    ParseIntDigits(s);
    assert s[..1][..0] == "";
    assert DigitsValue(s[..1]) == DigitValue(s[0]);
  }

  /** On two decimal digits the level is 6 minus their value. */
  lemma DbLevelDigits(d: string)
    requires |d| == 2 && IsDigit(d[0]) && IsDigit(d[1])
    ensures DbLevel(d) == Ok(IntToString(6 - (10 * DigitValue(d[0]) + DigitValue(d[1]))) + "dB")
  {
    ParseTwoDigits(d);
    DbLevelOf(d, 10 * DigitValue(d[0]) + DigitValue(d[1]));
  }

  lemma DbLevelOf(s: string, n: int)
    requires ParseInt(s) == Some(n)
    ensures DbLevel(s) == Ok(IntToString(6 - n) + "dB")
  {
  }

  /** "06" is the flat setting, 0dB. */
  lemma DbLevelFlat()
    ensures DbLevel("06") == Ok("0dB")
  {
    DbLevelRendered("06", "0dB");
  }

  /** Values above 6 render with a minus sign: "12" is -6dB. */
  lemma DbLevelNegative()
    ensures DbLevel("12") == Ok("-6dB")
  {
    assert IntToString(-6) == "-" + NatToString(6);
    DbLevelRendered("12", "-6dB");
  }

  lemma DbLevelRendered(d: string, r: string)
    requires |d| == 2 && IsDigit(d[0]) && IsDigit(d[1])
    requires IntToString(6 - (10 * DigitValue(d[0]) + DigitValue(d[1]))) + "dB" == r
    ensures DbLevel(d) == Ok(r)
  {
    DbLevelDigits(d);
  }

  lemma DecibelsParse(m: int, r: string)
    requires r == IntToString(m) + "dB"
    ensures |r| >= 3 && r[|r| - 2..] == "dB" && ParseInt(r[..|r| - 2]) == Some(m)
  {
    var t := IntToString(m);
    assert |t| >= 1 by { if m >= 0 { assert IsDigits(NatToString(m)); } }
    assert r[..|r| - 2] == t;
    ParseIntToString(m);
  }

  /** A rendered level reads back, through `int()`, as 6 minus the field's value. */
  lemma DbLevelReadsBack(s: string)
    requires DbLevel(s).Ok?
    ensures ParseInt(s).Some?
    ensures var r := DbLevel(s).value;
      |r| >= 3 && r[|r| - 2..] == "dB" && ParseInt(r[..|r| - 2]) == Some(6 - ParseInt(s).value)
  {
    assert ParseInt(s).Some?;
    var n := ParseInt(s).value;
    var r := IntToString(6 - n) + "dB";
    assert DbLevel(s) == Ok(r);
    DecibelsParse(6 - n, r);
  }

  /** `decode_tone`: treble or bass level, tone on/off, or None for any other line. */
  function DecodeTone(s: string): Result<Option<string>> {
    if StartsWith(s, "TR") then
      match DbLevel(Slice(s, 2, 4))
      case Err(e) => Err(e)
      case Ok(level) => Ok(Some("treble at " + level))
    else if StartsWith(s, "BA") then
      match DbLevel(Slice(s, 2, 4))
      case Err(e) => Err(e)
      case Ok(level) => Ok(Some("bass at " + level))
    else if s == "TO0" then Ok(Some("tone off"))
    else if s == "TO1" then Ok(Some("tone on"))
    else Ok(None)
  }

  /** Only the TR and BA prefixes and the exact lines "TO0" and "TO1" are tone lines. */
  lemma DecodeToneNone(s: string)
    ensures DecodeTone(s) == Ok(None) <==> !StartsWith(s, "TR") && !StartsWith(s, "BA") && s != "TO0" && s != "TO1"
    ensures DecodeTone("TO0") == Ok(Some("tone off")) && DecodeTone("TO1") == Ok(Some("tone on"))
  {
    if StartsWith(s, "TR") || StartsWith(s, "BA") {
      match DbLevel(Slice(s, 2, 4))
      case Err(e) => assert DecodeTone(s) == Err(e);
      case Ok(level) => assert DecodeTone(s).value.Some?;
    }
    DecodeToneOnOff();
  }

  lemma DecodeToneOnOff()
    ensures DecodeTone("TO0") == Ok(Some("tone off")) && DecodeTone("TO1") == Ok(Some("tone on"))
  {
    assert "TO0"[..2] == "TO" && "TO1"[..2] == "TO";
    assert !StartsWith("TO0", "TR") && !StartsWith("TO0", "BA");
    assert !StartsWith("TO1", "TR") && !StartsWith("TO1", "BA");
  }

  /** A tone line raises ValueError exactly when its two-character level field is not an integer. */
  lemma DecodeToneRaises(s: string)
    ensures DecodeTone(s).Err? <==> (StartsWith(s, "TR") || StartsWith(s, "BA")) && ParseInt(Slice(s, 2, 4)).None?
    ensures DecodeTone(s).Err? ==> DecodeTone(s).error == ValueError
  {
  }

  lemma DecodeToneLevel(d: string)
    requires |d| == 2 && IsDigit(d[0]) && IsDigit(d[1])
    ensures DecodeTone("TR" + d) == Ok(Some("treble at " + (IntToString(6 - (10 * DigitValue(d[0]) + DigitValue(d[1]))) + "dB")))
    ensures DecodeTone("BA" + d) == Ok(Some("bass at " + (IntToString(6 - (10 * DigitValue(d[0]) + DigitValue(d[1]))) + "dB")))
  {
    DbLevelDigits(d);
    ToneField("TR", d);
    ToneField("BA", d);
    assert "BA"[0] != "TR"[0];
  }

  lemma ToneField(tag: string, d: string)
    requires |tag| == 2 && |d| == 2
    ensures StartsWith(tag + d, tag) && Slice(tag + d, 2, 4) == d
  {
    assert (tag + d)[..2] == tag;
    assert (tag + d)[2..4] == d;
  }

  // ---------------------------------------------------------------------------
  // AST: audio status, with two channel-presence bitfields

  /** The channel table, in the order the decoder walks it (ascending 1-based offset). */
  const Channels: seq<(nat, string)> := [
    (5, "Left"), (6, "Center"), (7, "Right"), (8, "SL"), (9, "SR"), (10, "SBL"), (11, "S"), (12, "SBR"),
    (13, "LFE"), (14, "FHL"), (15, "FHR"), (16, "FWL"), (17, "FWR"), (18, "XL"), (19, "XC"), (20, "XR")
  ]

  /** The output-channel flags sit 21 positions after the input-channel flags. */
  const OutputOffset: nat := 21

  lemma ChannelOffsets()
    ensures |Channels| == 16
    ensures forall j :: 0 <= j < |Channels| ==> Channels[j].0 == j + 5
  {
  }

  /** Whether channel j's flag lies inside the padded status string. */
  predicate InReach(p: string, offset: nat, j: nat)
    requires j < |Channels|
  {
    Channels[j].0 + offset < |p|
  }

  /** Channel j is reported: its flag is in reach and is a non-zero digit. */
  predicate Flagged(p: string, offset: nat, j: nat)
    requires j < |Channels|
  {
    InReach(p, offset, j) && IsDigit(p[Channels[j].0 + offset]) && p[Channels[j].0 + offset] != '0'
  }

  /** Every flag in reach is a digit, so `int()` accepts it. */
  predicate FlagsParse(p: string, offset: nat) {
    forall j :: 0 <= j < |Channels| && InReach(p, offset, j) ==> IsDigit(p[Channels[j].0 + offset])
  }

  /** The labels of the first n channels that are reported, in table order. */
  function Reported(p: string, offset: nat, n: nat): seq<string>
    requires n <= |Channels|
  {
    if n == 0 then []
    else Reported(p, offset, n - 1) + (if Flagged(p, offset, n - 1) then [Channels[n - 1].1] else [])
  }

  datatype AstReport = AstReport(signal: string, frequency: string, inputs: seq<string>, outputs: seq<string>)

  /**
   * What `decode_ast` reports: the signal type and frequency from the first
   * four payload characters, then the input and output channels, read at the
   * 1-based offsets after a one-character pad.
   */
  function AstSpec(s: string): Result<AstReport> {
    if !StartsWith(s, "AST") then Err(AssertionError)
    else
      var rest := From(s, 3);
      var p := "-" + rest;
      if !FlagsParse(p, 0) || !FlagsParse(p, OutputOffset) then Err(ValueError)
      else Ok(AstReport(DecodeAis(Slice(rest, 0, 2)), DecodeAif(Slice(rest, 2, 4)),
                        Reported(p, 0, |Channels|), Reported(p, OutputOffset, |Channels|)))
  }

  lemma ParseIntChar(c: char)
    ensures ParseInt([c]) == if IsDigit(c) then Some(DigitValue(c)) else None
  {
    if IsSpace(c) {
      assert StripLeft([c]) == StripLeft([c][1..]) == "";
    } else {
      assert NoSpace([c]);
      StripNoSpace([c]);
      if IsDigit(c) {
        assert IsDigits([c]);
        assert [c][..0] == "";
        assert DigitsValue([c]) == DigitValue(c);
      } else {
        assert !IsDigits([c]);
        assert !IsDigits([c][1..]);
      }
    }
  }

  lemma {:induction false} ReportedBeyond(p: string, offset: nat, j: nat, n: nat)
    requires j <= n <= |Channels| && (j < |Channels| ==> !InReach(p, offset, j))
    ensures Reported(p, offset, n) == Reported(p, offset, j)
    decreases n
  {
    ChannelOffsets();
    if n > j {
      ReportedBeyond(p, offset, j, n - 1);
    }
  }

  /** One bitfield walk of `decode_ast`: stops at the first offset past the end, raises on a non-digit flag. */
  method ScanChannels(p: string, offset: nat) returns (r: Result<seq<string>>)
    ensures r == if FlagsParse(p, offset) then Ok(Reported(p, offset, |Channels|)) else Err(ValueError)
  {
    ChannelOffsets();
    var labels: seq<string> := [];
    var j := 0;
    while j < |Channels|
      invariant 0 <= j <= |Channels|
      invariant forall k :: 0 <= k < j && InReach(p, offset, k) ==> IsDigit(p[Channels[k].0 + offset])
      invariant labels == Reported(p, offset, j)
    {
      var (i, v) := Channels[j];
      if i + offset >= |p| {
        ReportedBeyond(p, offset, j, |Channels|);
        return Ok(labels);
      }
      var flag := ParseInt([p[i + offset]]);
      ParseIntChar(p[i + offset]);
      if flag.None? {
        return Err(ValueError);
      }
      if flag.value != 0 {
        labels := labels + [v];
      }
      j := j + 1;
    }
    return Ok(labels);
  }

  /** `decode_ast` */
  method DecodeAst(s: string) returns (r: Result<AstReport>)
    ensures r == AstSpec(s)
  {
    if !StartsWith(s, "AST") {
      return Err(AssertionError);
    }
    var rest := From(s, 3);
    var signal := DecodeAis(Slice(rest, 0, 2));
    var frequency := DecodeAif(Slice(rest, 2, 4));
    // the manual counts from 1: pad one character in front
    var p := "-" + rest;
    var inputs := ScanChannels(p, 0);
    if inputs.Err? {
      return Err(inputs.error);
    }
    var outputs := ScanChannels(p, OutputOffset);
    if outputs.Err? {
      return Err(outputs.error);
    }
    return Ok(AstReport(signal, frequency, inputs.value, outputs.value));
  }

  /** No two channels share a label. */
  lemma ChannelLabelsDistinct()
    ensures forall a, b :: 0 <= a < b < |Channels| ==> Channels[a].1 != Channels[b].1
  {
  }

  /** A channel's label is among the first n reported exactly when it is one of the first n and its flag is set. */
  lemma {:induction false} ReportedAt(p: string, offset: nat, n: nat, j: nat)
    requires n <= |Channels| && j < |Channels|
    ensures Channels[j].1 in Reported(p, offset, n) <==> j < n && Flagged(p, offset, j)
    decreases n
  {
    if n > 0 {
      ChannelLabelsDistinct();
      ReportedAt(p, offset, n - 1, j);
    }
  }

  /**
   * With the AST payload counted from 1, channel j is reported as an input iff
   * payload character (offset - 1) exists and is a non-zero digit, and as an
   * output iff the character 21 places later is; a payload that ends early just
   * reports fewer channels.
   */
  lemma AstChannels(s: string, j: nat)
    requires AstSpec(s).Ok? && j < |Channels|
    ensures var rest := From(s, 3); var k := Channels[j].0 - 1;
      && (Channels[j].1 in AstSpec(s).value.inputs <==> k < |rest| && IsDigit(rest[k]) && rest[k] != '0')
      && (Channels[j].1 in AstSpec(s).value.outputs <==> k + 21 < |rest| && IsDigit(rest[k + 21]) && rest[k + 21] != '0')
  {
    var rest := From(s, 3);
    var p := "-" + rest;
    ChannelOffsets();
    ReportedAt(p, 0, |Channels|, j);
    ReportedAt(p, OutputOffset, |Channels|, j);
    if Channels[j].0 < |p| {
      assert p[Channels[j].0] == rest[Channels[j].0 - 1];
    }
    if Channels[j].0 + 21 < |p| {
      assert p[Channels[j].0 + 21] == rest[Channels[j].0 + 20];
    }
  }

  /** The decoder raises only for a line without the AST prefix or for a non-digit flag in reach. */
  lemma AstErrors(s: string)
    ensures AstSpec(s) == Err(AssertionError) <==> !StartsWith(s, "AST")
    ensures AstSpec(s) == Err(ValueError) <==>
      StartsWith(s, "AST") && !(FlagsParse("-" + From(s, 3), 0) && FlagsParse("-" + From(s, 3), OutputOffset))
  {
  }

  // ---------------------------------------------------------------------------
  // VST: video status report

  const SignalMap: map<string, string> := map[
    "0" := "---", "1" := "VIDEO", "2" := "S-VIDEO", "3" := "COMPONENT", "4" := "HDMI", "5" := "Self OSD/JPEG"
  ]

  const SignalFormatMap: map<string, string> := map[
    "00" := "---",
    "01" := "480/60i",
    "02" := "576/50i",
    "03" := "480/60p",
    "04" := "576/50p",
    "05" := "720/60p",
    "06" := "720/50p",
    "07" := "1080/60i",
    "08" := "1080/50i",
    "09" := "1080/60p",
    "10" := "1080/50p",
    "11" := "1080/24p",
    "12" := "4Kx2K/24Hz",
    "13" := "4Kx2K/25Hz",
    "14" := "4Kx2K/30Hz",
    "15" := "4Kx2K/24Hz(SMPTE)"
  ]

  const AspectMap: map<string, string> := map["0" := "---", "1" := "4:3", "2" := "16:9", "3" := "14:9"]

  const ColorMap: map<string, string> := map[
    "0" := "---", "1" := "RGB Limit", "2" := "RGB Full", "3" := "YcbCr444", "4" := "YcbCr422"
  ]

  const FormatBitMap: map<string, string> := map[
    "0" := "---", "1" := "24bit (8bit*3)", "2" := "30bit (10bit*3)", "3" := "36bit (12bit*3)", "4" := "48bit (16bit*3)"
  ]

  const ColorSpaceMap: map<string, string> := map[
    "0" := "---", "1" := "Standard", "2" := "xvYCC601", "3" := "xvYCC709", "4" := "sYCC", "5" := "AdobeYCC601",
    "6" := "AdobeRGB"
  ]

  /** One line of the video-status report: its label, its 1-based offset and width, and its table. */
  datatype VstField = VstField(caption: string, start: nat, width: nat, table: VstTable)

  /** Which code table a field is looked up in. */
  datatype VstTable = Signal | SignalFormat | Aspect | Color | FormatBit | ColorSpace

  function TableMap(t: VstTable): map<string, string> {
    match t
    case Signal => SignalMap
    case SignalFormat => SignalFormatMap
    case Aspect => AspectMap
    case Color => ColorMap
    case FormatBit => FormatBitMap
    case ColorSpace => ColorSpaceMap
  }

  const VstFields: seq<VstField> := [
    VstField("Signal", 1, 1, Signal),
    VstField("Input resolution", 2, 2, SignalFormat),
    VstField("Aspect", 4, 1, Aspect),
    VstField("Input color format", 5, 1, Color),
    VstField("Input bit (HDMI only)", 6, 1, FormatBit),
    VstField("Input extend color space (HDMI only)", 7, 1, ColorSpace),
    VstField("Output resolution", 8, 2, SignalFormat),
    VstField("Output aspect", 10, 1, Aspect),
    VstField("Output color format (HDMI only)", 11, 1, Color),
    VstField("Output bit (HDMI only)", 12, 1, FormatBit),
    VstField("Output extend color space (HDMI only)", 13, 1, ColorSpace),
    VstField("Monitor recommend resolution information", 14, 2, SignalFormat),
    VstField("Monitor DeepColor", 16, 1, FormatBit)
  ]

  /** The fields lie back to back from offset 1 to offset 16 of the padded string. */
  lemma VstFieldsTile()
    ensures |VstFields| == 13 && VstFields[0].start == 1
    ensures forall j :: 0 < j < |VstFields| ==> VstFields[j].start == VstFields[j - 1].start + VstFields[j - 1].width
    ensures VstFields[12].start + VstFields[12].width == 17
  {
  }

  /** Every field lies within the first 16 payload characters. */
  lemma VstFieldsInPayload()
    ensures forall j :: 0 <= j < |VstFields| ==> 1 <= VstFields[j].start && VstFields[j].start + VstFields[j].width <= 17
  {
  }

  /** One line of a report, "caption: value". */
  function ReportLine(caption: string, value: string): string {
    caption + ": " + value + "\n"
  }

  function VstLine(p: string, f: VstField): string {
    ReportLine(f.caption, Get(TableMap(f.table), Slice(p, f.start, f.start + f.width), "Unknown"))
  }

  /** The first n lines of the report, read from the padded string p. */
  function VstReport(p: string, n: nat): string
    requires n <= |VstFields|
  {
    if n == 0 then "" else VstReport(p, n - 1) + VstLine(p, VstFields[n - 1])
  }

  /**
   * `decode_vst`: None without the VST prefix; IndexError when a
   * single-character field lies past the end (the last one is at offset 16);
   * otherwise the 13-line report, one line per entry of the field table.
   */
  function DecodeVst(s: string): Result<Option<string>> {
    if !StartsWith(s, "VST") then Ok(None)
    else
      var p := "-" + From(s, 3);
      if |p| <= 16 then Err(IndexError)
      else Ok(Some(VstReport(p, |VstFields|)))
  }

  /** A VST line is decoded when it carries at least 16 payload characters; a shorter one raises IndexError. */
  lemma DecodeVstOutcome(s: string)
    ensures DecodeVst(s) == Ok(None) <==> !StartsWith(s, "VST")
    ensures DecodeVst(s) == Err(IndexError) <==> StartsWith(s, "VST") && |s| < 19
    ensures DecodeVst(s).Ok? && DecodeVst(s).value.Some? <==> StartsWith(s, "VST") && |s| >= 19
  {
  }

  /**
   * Each report line shows its field, read at its documented 1-based offset in
   * the payload, through its own table, with "Unknown" for a code outside it.
   */
  lemma VstFieldValue(s: string, j: nat)
    requires StartsWith(s, "VST") && |s| >= 19 && j < |VstFields|
    ensures var f := VstFields[j]; var code := From(s, 3)[f.start - 1 .. f.start - 1 + f.width];
      VstLine("-" + From(s, 3), f) == f.caption + ": " + (if code in TableMap(f.table) then TableMap(f.table)[code] else "Unknown") + "\n"
  {
    var p := "-" + From(s, 3);
    var f := VstFields[j];
    VstFieldsInPayload();
    assert Slice(p, f.start, f.start + f.width) == From(s, 3)[f.start - 1 .. f.start - 1 + f.width];
  }
}
