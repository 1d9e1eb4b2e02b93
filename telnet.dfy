/**
 * The line classifier and command resolver of the console controller
 * (telnet.py): what `read_loop` makes of each status line the receiver sends,
 * and what `write_loop` sends for each command the user types.
 *
 * The loops' prints and sends become returned events and wire lines; the
 * listening-mode tables of modes_display/modes_set are parameters.
 */
module Telnet {
  import opened Py
  import Decoders

  // ---------------------------------------------------------------------------
  // Tables

  /** `inputMap`: the input names the status reader knows. */
  const InputMap: map<string, string> := map[
    "41" := "Pandora", "44" := "Media Server", "45" := "Favorites", "17" := "iPod/USB",
    "05" := "TV", "01" := "CD", "13" := "USB-DAC", "02" := "TUNER", "00" := "PHONO",
    "12" := "MULTI CH IN", "33" := "ADAPTER PORT", "48" := "MHL", "31" := "HDMI"
  ]

  /** `commandMap`: console words and the receiver commands they stand for, in the groups the table lists them. */
  const CommandMap: map<string, string> :=
    AmpCommands + ToneCommands + ModeCommands + InputCommands + NetworkCommands + TunerCommands

  /** Power and volume. */
  const AmpCommands: map<string, string> := map[
    "on" := "PO", "off" := "PF", "up" := "VU", "+" := "VU", "down" := "VD", "-" := "VD",
    "mute" := "MO", "unmute" := "MF", "volume" := "?V"
  ]

  /** Tone, MCACC and phase control. */
  const ToneCommands: map<string, string> := map[
    "tone" := "9TO", "tone off" := "0TO", "tone on" := "1TO",
    "treble up" := "TI", "treble down" := "TD", "treble reset" := "06TR",
    "bass up" := "BI", "bass down" := "BD", "bass reset" := "06BA",
    "mcacc" := "MC0", "phase" := "IS9"
  ]

  /** Stereo modes, the mode query and loudness. */
  const ModeCommands: map<string, string> := map[
    "stereo" := "0001SR", "unplugged" := "0109SR", "extended" := "0112SR", "mode" := "?S", "loud" := "9ATW"
  ]

  /** Input switching. */
  const InputCommands: map<string, string> := map[
    "bd" := "25FN", "dvd" := "04FN", "sat" := "06FN", "video" := "10FN",
    "hdmi1" := "19FN", "hdmi2" := "20FN", "hdmi3" := "21FN", "hdmi4" := "22FN", "hdmi5" := "23FN",
    "hdmi6" := "24FN", "hdmi7" := "34FN", "net" := "26FN", "cd" := "01FN", "iradio" := "38FN",
    "tv" := "15FN", "radio" := "02FN", "tuner" := "02FN", "phono" := "00FN", "hdmi" := "31FN",
    "pandora" := "41FN"
  ]

  /** Network player controls. */
  const NetworkCommands: map<string, string> := map[
    "start" := "30NW", "next" := "13NW", "pause" := "11NW", "play" := "10NW", "previous" := "12NW",
    "stop" := "20NW", "clear" := "33NW", "repeat" := "34NW", "random" := "35NW", "menu" := "36NW",
    "info" := "?GAH", "list" := "?GAI", "top menu" := "19IP"
  ]

  /** Tuner presets. */
  const TunerCommands: map<string, string> := map[
    "nextpreset" := "TPI", "prevpreset" := "TPD", "mpx" := "05TN"
  ]

  /** The commands `get_status` sends, in order. */
  const StatusQueries: seq<string> := ["?BA", "?TR", "?TO", "?L", "?AST"]

  // ---------------------------------------------------------------------------
  // Error replies

  /** `parseError`: the receiver's error replies and their messages. */
  function ParseError(s: string): Option<string> {
    if s == "E02" then Some("NOT AVAILABLE NOW")
    else if s == "E03" then Some("INVALID COMMAND")
    else if s == "E04" then Some("COMMAND ERROR")
    else if s == "E06" then Some("PARAMETER ERROR")
    else if s == "B00" then Some("BUSY")
    else None
  }

  /** Exactly the five error codes have a message, and each message is non-empty. */
  lemma ParseErrorCodes(s: string)
    ensures ParseError(s).Some? <==> s in {"E02", "E03", "E04", "E06", "B00"}
    ensures ParseError(s).Some? ==> ParseError(s).value != ""
    ensures ParseError("E04") == Some("COMMAND ERROR") && ParseError("B00") == Some("BUSY")
  {
  }

  // ---------------------------------------------------------------------------
  // FL: the scroll text, through URL quoting

  /** The URL `decodeFL` builds: "%" before every pair of payload characters (the last may be single). */
  function Quoted(p: string): string
    decreases |p|
  {
    if p == "" then "" else "%" + Slice(p, 0, 2) + Quoted(From(p, 2))
  }

  /** `urllib.unquote`: "%" and two hex digits become that character; anything else is copied. */
  function Unquote(u: string): string
    decreases |u|
  {
    if |u| >= 3 && u[0] == '%' && IsHexDigit(u[1]) && IsHexDigit(u[2]) then
      [(16 * HexValue(u[1]) + HexValue(u[2])) as char] + Unquote(u[3..])
    else if u == "" then ""
    else [u[0]] + Unquote(u[1..])
  }

  /**
   * What the scroll text is, pair by pair: a pair of hex digits is one
   * character; any other pair, or a single last character, stays as "%"
   * followed by it.
   */
  function HexPairs(p: string): (r: string)
    ensures p != "" ==> r != ""
    decreases |p|
  {
    if p == "" then ""
    else if |p| == 1 then "%" + p
    else if IsHexDigit(p[0]) && IsHexDigit(p[1]) then
      [(16 * HexValue(p[0]) + HexValue(p[1])) as char] + HexPairs(p[2..])
    else "%" + p[..2] + HexPairs(p[2..])
  }

  /** Quoting from position i onwards: one "%" and the pair at i, then the rest. */
  lemma QuotedStep(p: string, i: nat)
    requires i < |p|
    ensures Quoted(From(p, i)) == "%" + Slice(p, i, i + 2) + Quoted(From(p, i + 2))
  {
    var q := From(p, i);
    assert Slice(q, 0, 2) == Slice(p, i, i + 2);
    assert From(q, 2) == From(p, i + 2);
  }

  /** Where no escape starts at the head, `Unquote` copies the first character. */
  lemma UnquoteCopy(u: string)
    requires u != "" && (|u| < 3 || u[0] != '%' || !IsHexDigit(u[1]) || !IsHexDigit(u[2]))
    ensures Unquote(u) == [u[0]] + Unquote(u[1..])
  {
  }

  /** An escape at the head becomes one character. */
  lemma UnquoteEscape(u: string)
    requires |u| >= 3 && u[0] == '%' && IsHexDigit(u[1]) && IsHexDigit(u[2])
    ensures Unquote(u) == [(16 * HexValue(u[1]) + HexValue(u[2])) as char] + Unquote(u[3..])
  {
  }

  /** Characters in front of a "%" (or of nothing) cannot start an escape, so they are copied. */
  lemma {:induction false} UnquoteVerbatim(x: string, q: string)
    requires |x| <= 2 && (q == "" || q[0] == '%')
    ensures Unquote(x + q) == x + Unquote(q)
    decreases |x|
  {
    if x != "" {
      var u := x + q;
      assert !IsHexDigit('%');
      if |u| >= 3 {
        assert u[2] == if |x| == 2 then q[0] else q[1];
        if |x| == 1 {
          assert u[1] == q[0];
        }
      }
      UnquoteCopy(u);
      assert u[1..] == x[1..] + q;
      UnquoteVerbatim(x[1..], q);
      assert x == [x[0]] + x[1..];
    } else {
      assert x + q == q;
    }
  }

  /** One step of the pairwise decoding when the head pair is two hex digits. */
  lemma UnquoteHexPair(p: string, q: string)
    requires |p| >= 2 && IsHexDigit(p[0]) && IsHexDigit(p[1])
    requires Unquote(q) == HexPairs(p[2..])
    ensures Unquote("%" + p[..2] + q) == HexPairs(p)
  {
    var u := "%" + p[..2] + q;
    assert u[1] == p[0] && u[2] == p[1];
    UnquoteEscape(u);
    assert u[3..] == q;
  }

  /** A "%" in front of a single character or of a pair that is not two hex digits is copied. */
  lemma UnquotePercent(x: string, q: string, u: string)
    requires 1 <= |x| <= 2 && (q == "" || q[0] == '%')
    requires |x| == 2 ==> !(IsHexDigit(x[0]) && IsHexDigit(x[1]))
    requires |x| == 1 ==> q == ""
    requires u == "%" + x + q
    ensures Unquote(u) == "%" + x + Unquote(q)
  {
    UnquotePercentHead(x, q);
    UnquoteVerbatim(x, q);
    assert "%" + (x + Unquote(q)) == "%" + x + Unquote(q);
  }

  lemma UnquotePercentHead(x: string, q: string)
    requires 1 <= |x| <= 2
    requires |x| == 2 ==> !(IsHexDigit(x[0]) && IsHexDigit(x[1]))
    requires |x| == 1 ==> q == ""
    ensures Unquote("%" + x + q) == "%" + Unquote(x + q)
  {
    var u := "%" + x + q;
    assert u != "" && (|u| < 3 || !IsHexDigit(u[1]) || !IsHexDigit(u[2])) by {
      assert u[1] == x[0];
      if |x| == 2 {
        assert u[2] == x[1];
      } else {
        assert |u| == 2;
      }
    }
    UnquoteCopy(u);
    assert u[0] == '%' && u[1..] == x + q;
  }

  /** The pairwise decoding keeps a single character, or a pair that is not two hex digits, behind a "%". */
  lemma HexPairsOther(p: string)
    requires p != "" && (|p| >= 2 ==> !(IsHexDigit(p[0]) && IsHexDigit(p[1])))
    ensures HexPairs(p) == "%" + Slice(p, 0, 2) + HexPairs(From(p, 2))
  {
    if |p| >= 2 {
      assert From(p, 2) == p[2..] && Slice(p, 0, 2) == p[..2];
    } else {
      assert Slice(p, 0, 2) == p && From(p, 2) == "";
    }
  }

  /** Unquoting the URL `decodeFL` builds gives the pairwise decoding of the payload. */
  lemma {:induction false} UnquoteQuoted(p: string)
    ensures Unquote(Quoted(p)) == HexPairs(p)
    decreases |p|
  {
    if p != "" {
      var x, rest := Slice(p, 0, 2), From(p, 2);
      var q := Quoted(rest);
      UnquoteQuoted(rest);
      assert Quoted(p) == "%" + x + q;
      if |p| >= 2 && IsHexDigit(p[0]) && IsHexDigit(p[1]) {
        assert rest == p[2..] && x == p[..2];
        UnquoteHexPair(p, q);
      } else {
        assert q == "" || q[0] == '%';
        assert |p| == 1 ==> rest == "" && q == "";
        UnquotePercent(x, q, Quoted(p));
        HexPairsOther(p);
      }
    }
  }

  /** `decodeFL`: None unless the line starts with "FL"; the payload after four characters, quoted pair by pair and unquoted. */
  method DecodeFL(s: string) returns (r: Option<string>)
    ensures r == if StartsWith(s, "FL") then Some(HexPairs(From(s, 4))) else None
  {
    if !StartsWith(s, "FL") {
      return None;
    }
    var p := From(From(s, 2), 2);
    assert p == From(s, 4);
    var url := "";
    var i := 0;
    while i < |p|
      invariant 0 <= i <= |p| + 1
      invariant url + Quoted(From(p, i)) == Quoted(p)
    {
      QuotedStep(p, i);
      url := url + "%" + Slice(p, i, i + 2);
      i := i + 2;
    }
    assert From(p, i) == "";
    assert url == Quoted(p);
    UnquoteQuoted(p);
    return Some(Unquote(url));
  }

  /** The scroll text is empty (so `read_loop` passes the line on) exactly when the payload is. */
  lemma ScrollTextEmpty(p: string)
    ensures HexPairs(p) == "" <==> p == ""
  {
  }

  /** On an even run of hex digits, pair k of the payload is character k of the text. */
  lemma {:induction false} HexPairsValues(p: string)
    requires |p| % 2 == 0 && forall i :: 0 <= i < |p| ==> IsHexDigit(p[i])
    ensures |HexPairs(p)| == |p| / 2
    ensures forall k :: 0 <= k < |p| / 2 ==> HexPairs(p)[k] as int == 16 * HexValue(p[2 * k]) + HexValue(p[2 * k + 1])
    decreases |p|
  {
    if p != "" {
      var rest := p[2..];
      HexPairsValues(rest);
      forall k | 1 <= k < |p| / 2
        ensures HexPairs(p)[k] as int == 16 * HexValue(p[2 * k]) + HexValue(p[2 * k + 1])
      {
        assert HexPairs(p)[k] == HexPairs(rest)[k - 1];
        assert rest[2 * (k - 1)] == p[2 * k] && rest[2 * (k - 1) + 1] == p[2 * k + 1];
      }
    }
  }

  /**
   * Where the `bytes.fromhex` decoder of decoders.py succeeds on a payload
   * without whitespace, this decoder gives the same text.
   */
  lemma DecodeFLAgrees(s: string)
    requires StartsWith(s, "FL") && NoSpace(Decoders.FlPayload(s)) && Decoders.DecodeFl(s).Ok?
    ensures Decoders.DecodeFl(s) == Ok(Some(HexPairs(From(s, 4))))
  {
    var p := Decoders.FlPayload(s);
    assert p == From(s, 4);
    Decoders.DecodeFlPayload(s);
    FromHexValues(p);
    HexPairsValues(p);
    var bs := FromHex(p).value;
    var text := Decoders.DecodeFl(s).value.value;
    assert text == HexPairs(p) by {
      forall k | 0 <= k < |text| ensures text[k] == HexPairs(p)[k] {
        assert text[k] as int == bs[k];
      }
    }
  }

  // ---------------------------------------------------------------------------
  // The menu family, as telnet.py has it

  /**
   * `decodeGeh` of telnet.py: the same tables and fields as decode_geh of
   * decoders.py, but a GEH line also reads the focus character, payload
   * position 2, which raises IndexError on a short line.
   */
  function DecodeGehLine(s: string): Result<Option<string>> {
    if StartsWith(s, "GDH") then
      var fields := From(s, 3);
      Ok(Some("items " + Slice(fields, 0, 5) + " to " + Slice(fields, 5, 10) + " of total " + From(fields, 10)))
    else if StartsWith(s, "GBH") then Ok(Some("max list number: " + From(s, 2)))
    else if StartsWith(s, "GCH") then Ok(Some(Get(Decoders.ScreenTypeMap, Slice(s, 3, 5), "unknown") + " - " + s))
    else if StartsWith(s, "GHH") then Ok(Some("source: " + Get(Decoders.InternetSourceMap, From(s, 2), "unknown")))
    else if !StartsWith(s, "GEH") then Ok(None)
    else
      var rest := From(s, 3);
      if |rest| <= 2 then Err(IndexError)
      else
        var code := Slice(rest, 3, 5);
        Ok(Some(Get(Decoders.TrackFieldsMap, code, "unknown (" + code + ")") + ": " + From(rest, 5)))
  }

  /** It raises exactly on a GEH line of fewer than six characters, and otherwise agrees with decoders.py. */
  lemma DecodeGehLineAgrees(s: string)
    ensures DecodeGehLine(s).Err? <==> StartsWith(s, "GEH") && |s| < 6
    ensures DecodeGehLine(s).Ok? ==> DecodeGehLine(s).value == Decoders.DecodeGeh(s)
    ensures DecodeGehLine(s).Ok? && DecodeGehLine(s).value.Some? ==> DecodeGehLine(s).value.value != ""
  {
  }

  // ---------------------------------------------------------------------------
  // Listening mode and phase control

  /** `translateMode`: an LM line always has a mode name, "Unknown" when the table has none (or an empty one). */
  function TranslateMode(s: string, displayModes: map<string, string>): Option<string> {
    if !StartsWith(s, "LM") then None
    else
      var m := Get(displayModes, From(s, 2), "");
      Some(if m != "" then m else "Unknown")
  }

  lemma TranslateModeTotal(s: string, displayModes: map<string, string>)
    ensures TranslateMode(s, displayModes).Some? <==> StartsWith(s, "LM")
    ensures TranslateMode(s, displayModes).Some? ==>
      var code := From(s, 2);
      && TranslateMode(s, displayModes).value != ""
      && (TranslateMode(s, displayModes).value == "Unknown" <==>
            code !in displayModes || displayModes[code] == "" || displayModes[code] == "Unknown")
  {
  }

  /** The phase-control setting of an ATE line's field, compared as strings against "00" and "16". */
  function PhaseSetting(num: string): string {
    if LexLe("00", num) && LexLe(num, "16") then num + "ms"
    else if num == "97" then "AUTO"
    else if num == "98" then "UP"
    else if num == "99" then "DOWN"
    else "unknown"
  }

  /** On two digits: "00" to "16" are delays in ms, 97/98/99 are AUTO/UP/DOWN, everything else unknown. */
  lemma PhaseSettingTwoDigits(num: string)
    requires |num| == 2 && IsDigit(num[0]) && IsDigit(num[1])
    ensures PhaseSetting(num) == num + "ms" <==> num[0] == '0' || (num[0] == '1' && num[1] <= '6')
    ensures num[0] == '9' && num[1] == '7' ==> PhaseSetting(num) == "AUTO"
    ensures num[0] == '9' && num[1] == '8' ==> PhaseSetting(num) == "UP"
    ensures num[0] == '9' && num[1] == '9' ==> PhaseSetting(num) == "DOWN"
    ensures (num[0] == '1' && num[1] > '6') || ('2' <= num[0] <= '8') || (num[0] == '9' && num[1] < '7') ==>
      PhaseSetting(num) == "unknown"
  {
    Decoders.LexLeTwo("00", num);
    Decoders.LexLeTwo(num, "16");
    var inRange := num[0] == '0' || (num[0] == '1' && num[1] <= '6');
    assert inRange <==> LexLe("00", num) && LexLe(num, "16");
    if !inRange {
      var r := PhaseSetting(num);
      assert r in {"AUTO", "UP", "DOWN", "unknown"};
      assert (num + "ms")[3] == 's';
      assert r != num + "ms";
      if num[0] == '9' {
        assert num == ['9', num[1]];
      }
    }
  }

  /** Because the range test compares strings, a one-digit "1" and a three-digit "100" are delays too. */
  lemma PhaseSettingStringRange()
    ensures PhaseSetting("1") == "1ms"
    ensures PhaseSetting("100") == "100ms"
    ensures PhaseSetting("0") == "unknown"
  {
    assert LexLess("00", "1") && LexLess("1", "16");
    assert LexLess("00", "100");
    assert LexLess("100", "16") by { assert LexLess("100"[1..], "16"[1..]); }
    assert LexLess("0", "00");
    assert !LexLess("00", "0") by { assert !LexLess("00"[1..], "0"[1..]); }
  }

  // ---------------------------------------------------------------------------
  // decodeAST, as telnet.py has it

  /** The channel flags `decodeAST` prints, in order: 16 inputs, then 13 outputs. */
  const ChannelLabels: seq<string> :=
    ["Left", "Center", "Right", "SL", "SR", "SBL", "S", "SBR", "LFE", "FHL", "FHR", "FWL", "FWR", "XL", "XC", "XR"]
  const OutputLabels: seq<string> :=
    ["Left", "Center", "Right", "SL", "SR", "SBL", "S", "SBR", "LFE", "FHL", "FHR", "FWL", "FWR"]

  /** The padded positions of the first input flag and the first output flag. */
  const InputStart: nat := 5
  const OutputStart: nat := 26

  /** No label appears twice. */
  predicate Distinct(labels: seq<string>) {
    forall a, b :: 0 <= a < b < |labels| ==> labels[a] != labels[b]
  }

  lemma ChannelLabelsDistinct()
    ensures |ChannelLabels| == 16 && Distinct(ChannelLabels)
    ensures |OutputLabels| == 13 && Distinct(OutputLabels) && OutputLabels == ChannelLabels[..13]
  {
  }

  /** `decode_ais` of telnet.py: the same names as decoders.py, but None where that one says "unknown". */
  function SignalName(s: string): Option<string> {
    var n := Decoders.DecodeAis(s);
    if n == "unknown" then None else Some(n)
  }

  /** `decode_aif` of telnet.py: None for a code outside the table. */
  function FrequencyName(s: string): Option<string> {
    if s in Decoders.AifMap then Some(Decoders.AifMap[s]) else None
  }

  /** A two-character field names a signal or a frequency exactly when its code is listed. */
  lemma AudioFieldNames(s: string)
    requires |s| <= 2
    ensures SignalName(s).Some? <==> s in Decoders.AisCodes
    ensures FrequencyName(s).Some? <==> s in {"00", "01", "02", "03", "04", "05", "06", "07"}
  {
    Decoders.DecodeAisUnknown(s);
    Decoders.DecodeAifTotal(s);
  }

  /**
   * The `if int(s[k])` tests at positions start .. start+n-1, in order: the
   * first position past the end raises IndexError, the first non-digit
   * raises ValueError; otherwise whether each flag is set.
   */
  function ReadFlags(p: string, start: nat, n: nat): (r: Result<seq<bool>>)
    ensures r.Ok? ==> |r.value| == n
    decreases n
  {
    if n == 0 then Ok([])
    else if start >= |p| then Err(IndexError)
    else if !IsDigit(p[start]) then Err(ValueError)
    else
      match ReadFlags(p, start + 1, n - 1)
      case Err(e) => Err(e)
      case Ok(rest) => Ok([p[start] != '0'] + rest)
  }

  /** The flags read fine exactly when all n positions exist and hold digits; a flag is set iff it is not "0". */
  lemma {:induction false} ReadFlagsSpec(p: string, start: nat, n: nat)
    ensures ReadFlags(p, start, n).Ok? <==> (n == 0 || start + n <= |p|) && forall i :: start <= i < start + n ==> IsDigit(p[i])
    ensures ReadFlags(p, start, n).Ok? ==> forall i :: 0 <= i < n ==> ReadFlags(p, start, n).value[i] == (p[start + i] != '0')
    ensures ReadFlags(p, start, n) == Err(IndexError) <==>
      n > 0 && start + n > |p| && forall i :: start <= i < |p| ==> IsDigit(p[i])
    decreases n
  {
    if n > 0 && start < |p| && !IsDigit(p[start]) {
      assert start <= start < start + n;
    } else if n > 0 && start < |p| {
      ReadFlagsSpec(p, start + 1, n - 1);
      var r := ReadFlags(p, start + 1, n - 1);
      if r.Ok? {
        forall i | 0 <= i < n ensures ReadFlags(p, start, n).value[i] == (p[start + i] != '0') {
          if i > 0 {
            assert ReadFlags(p, start, n).value[i] == r.value[i - 1];
          }
        }
      }
    }
  }

  /** The labels whose flag is set, in order. */
  function Selected(labels: seq<string>, flags: seq<bool>): seq<string>
    requires |labels| == |flags|
    decreases |flags|
  {
    if flags == [] then []
    else (if flags[0] then [labels[0]] else []) + Selected(labels[1..], flags[1..])
  }

  /** With distinct labels, a label is selected exactly when its own flag is set. */
  lemma {:induction false} SelectedAt(labels: seq<string>, flags: seq<bool>, j: nat)
    requires |labels| == |flags| && j < |labels|
    requires forall a, b :: 0 <= a < b < |labels| ==> labels[a] != labels[b]
    ensures labels[j] in Selected(labels, flags) <==> flags[j]
    decreases |flags|
  {
    if j > 0 {
      SelectedAt(labels[1..], flags[1..], j - 1);
      assert labels[1..][j - 1] == labels[j];
    } else if |labels| > 1 {
      assert labels[0] !in labels[1..];
      SelectedNotIn(labels[1..], flags[1..], labels[0]);
    }
  }

  lemma {:induction false} SelectedNotIn(labels: seq<string>, flags: seq<bool>, x: string)
    requires |labels| == |flags| && x !in labels
    ensures x !in Selected(labels, flags)
    decreases |flags|
  {
    if flags != [] {
      SelectedNotIn(labels[1..], flags[1..], x);
    }
  }

  /** What `decodeAST` prints: signal type, frequency, and the input and output channels that are on. */
  datatype AudioReport = AudioReport(signal: Option<string>, frequency: Option<string>, inputs: seq<string>, outputs: seq<string>)

  /**
   * `decodeAST` of telnet.py: None without the prefix; otherwise the payload is
   * padded by one character and the flags at fixed positions 5-20 and 26-38
   * are all read, so a short line raises.
   */
  function DecodeAstLine(s: string): Result<Option<AudioReport>> {
    if !StartsWith(s, "AST") then Ok(None)
    else
      var rest := From(s, 3);
      var p := "-" + rest;
      match ReadFlags(p, InputStart, |ChannelLabels|)
      case Err(e) => Err(e)
      case Ok(ins) =>
        match ReadFlags(p, OutputStart, |OutputLabels|)
        case Err(e) => Err(e)
        case Ok(outs) =>
          Ok(Some(AudioReport(SignalName(Slice(rest, 0, 2)), FrequencyName(Slice(rest, 2, 4)),
                              Selected(ChannelLabels, ins), Selected(OutputLabels, outs))))
  }

  /** The flag positions `decodeAST` reads, counted in the line itself. */
  predicate IsFlagPosition(k: nat) {
    7 <= k < 23 || 28 <= k < 41
  }

  /** The padded payload at position k is character k + 2 of the line. */
  lemma AstPadding(s: string)
    requires StartsWith(s, "AST")
    ensures |"-" + From(s, 3)| == |s| - 2
    ensures forall k :: 1 <= k < |s| - 2 ==> ("-" + From(s, 3))[k] == s[k + 2]
  {
  }

  /** An AST line decodes exactly when it has at least 41 characters and every flag position holds a digit. */
  lemma DecodeAstLineOk(s: string)
    requires StartsWith(s, "AST")
    ensures DecodeAstLine(s).Ok? <==> |s| >= 41 && forall k: nat :: IsFlagPosition(k) && k < |s| ==> IsDigit(s[k])
    ensures DecodeAstLine(s).Ok? ==> DecodeAstLine(s).value.Some?
  {
    var p := "-" + From(s, 3);
    AstPadding(s);
    ReadFlagsSpec(p, InputStart, 16);
    ReadFlagsSpec(p, OutputStart, |OutputLabels|);
    var ri, ro := ReadFlags(p, InputStart, 16), ReadFlags(p, OutputStart, |OutputLabels|);
    if ri.Ok? && ro.Ok? {
      forall k: nat | IsFlagPosition(k) && k < |s| ensures IsDigit(s[k]) {
        assert p[k - 2] == s[k];
      }
    }
    if |s| >= 41 && forall k: nat :: IsFlagPosition(k) && k < |s| ==> IsDigit(s[k]) {
      forall i | InputStart <= i < InputStart + 16 ensures IsDigit(p[i]) {
        assert IsFlagPosition(i + 2);
      }
      forall i | OutputStart <= i < OutputStart + |OutputLabels| ensures IsDigit(p[i]) {
        assert IsFlagPosition(i + 2);
      }
    }
  }

  /** A distinct label is selected from a flag read iff its character is not "0". */
  lemma SelectedFlag(labels: seq<string>, p: string, start: nat, j: nat)
    requires ReadFlags(p, start, |labels|).Ok? && j < |labels| && Distinct(labels)
    ensures start + j < |p|
    ensures labels[j] in Selected(labels, ReadFlags(p, start, |labels|).value) <==> p[start + j] != '0'
  {
    ReadFlagsSpec(p, start, |labels|);
    SelectedAt(labels, ReadFlags(p, start, |labels|).value, j);
  }

  /** The decoded report's channel lists are the flags read at the input and output positions. */
  lemma DecodeAstLineParts(s: string)
    requires DecodeAstLine(s).Ok? && DecodeAstLine(s).value.Some?
    ensures var p := "-" + From(s, 3);
      && ReadFlags(p, InputStart, |ChannelLabels|).Ok? && ReadFlags(p, OutputStart, |OutputLabels|).Ok?
      && DecodeAstLine(s).value.value.inputs == Selected(ChannelLabels, ReadFlags(p, InputStart, |ChannelLabels|).value)
      && DecodeAstLine(s).value.value.outputs == Selected(OutputLabels, ReadFlags(p, OutputStart, |OutputLabels|).value)
  {
  }

  /** Input channel j is on iff character 7+j of the line is not "0". */
  lemma DecodeAstLineInputs(s: string, j: nat)
    requires DecodeAstLine(s).Ok? && DecodeAstLine(s).value.Some? && j < |ChannelLabels|
    ensures 7 + j < |s|
    ensures ChannelLabels[j] in DecodeAstLine(s).value.value.inputs <==> s[7 + j] != '0'
  {
    var p := "-" + From(s, 3);
    DecodeAstLineParts(s);
    AstPadding(s);
    ChannelLabelsDistinct();
    SelectedFlag(ChannelLabels, p, InputStart, j);
    assert p[InputStart + j] == s[7 + j];
  }

  /** Output channel j is on iff character 28+j of the line is not "0". */
  lemma DecodeAstLineOutputs(s: string, j: nat)
    requires DecodeAstLine(s).Ok? && DecodeAstLine(s).value.Some? && j < |OutputLabels|
    ensures 28 + j < |s|
    ensures OutputLabels[j] in DecodeAstLine(s).value.value.outputs <==> s[28 + j] != '0'
  {
    var p := "-" + From(s, 3);
    DecodeAstLineParts(s);
    AstPadding(s);
    ChannelLabelsDistinct();
    SelectedFlag(OutputLabels, p, OutputStart, j);
    assert p[OutputStart + j] == s[28 + j];
  }

  /**
   * A well-formed AST line that is too short raises IndexError: the reader
   * thread dies where decoders.py would report fewer channels.
   */
  lemma DecodeAstLineShort(s: string)
    requires StartsWith(s, "AST") && |s| < 41
    requires forall k :: 3 <= k < |s| ==> IsDigit(s[k])
    ensures DecodeAstLine(s) == Err(IndexError)
  {
    var p := "-" + From(s, 3);
    AstPadding(s);
    ReadFlagsSpec(p, InputStart, 16);
    ReadFlagsSpec(p, OutputStart, |OutputLabels|);
  }

  // ---------------------------------------------------------------------------
  // read_loop: one status line

  /** The scroll text `decodeFL` gives for a line: None without the "FL" prefix. */
  function ScrollText(s: string): Option<string> {
    if StartsWith(s, "FL") then Some(HexPairs(From(s, 4))) else None
  }

  /** What `read_loop` prints for one line; the count is the line's number, printed with errors and unhandled lines. */
  datatype Event =
    | ErrorReply(count: nat, message: string)
    | Tone(text: string)
    | Menu(text: string)
    | Scroll(text: string)
    | Input(name: string)
    | Flag(feature: string, on: bool)
    | PhaseControl(setting: string)
    | ListeningMode(mode: string, line: string)
    | AudioStatus(report: AudioReport)
    | SurroundMode(mode: string, line: string)
    | Unhandled(count: nat, line: string)

  /** The rules after the FL rule, first match wins: input, the three flags, phase control. */
  function ClassifyLate(s: string, count: nat, displayModes: map<string, string>, setModes: map<string, string>): Result<Event> {
    if StartsWith(s, "FN") then Ok(Input(Get(InputMap, From(s, 2), "unknown (" + s + ")")))
    else if StartsWith(s, "ATW") then Ok(Flag("loudness", s == "ATW1"))
    else if StartsWith(s, "ATC") then Ok(Flag("eq", s == "ATC1"))
    else if StartsWith(s, "ATD") then Ok(Flag("standing wave", s == "ATD1"))
    else if StartsWith(s, "ATE") then Ok(PhaseControl(PhaseSetting(From(s, 3))))
    else ClassifyModes(s, count, displayModes, setModes)
  }

  /** The last rules: listening mode, audio status, surround mode, and the default. */
  function ClassifyModes(s: string, count: nat, displayModes: map<string, string>, setModes: map<string, string>): Result<Event> {
    if TranslateMode(s, displayModes).Some? then Ok(ListeningMode(TranslateMode(s, displayModes).value, s))
    else if StartsWith(s, "AST") then
      match DecodeAstLine(s)
      case Err(e) => Err(e)
      case Ok(report) => if report.Some? then Ok(AudioStatus(report.value)) else Ok(Unhandled(count, s))
    else if StartsWith(s, "SR") && Get(setModes, From(s, 2), "") != "" then Ok(SurroundMode(setModes[From(s, 2)], s))
    else Ok(Unhandled(count, s))
  }

  /**
   * One pass of `read_loop`'s body for line number `count`: the first rule
   * whose decoder gives a non-empty answer wins; an exception from a decoder
   * ends the loop.
   */
  function Classify(s: string, count: nat, displayModes: map<string, string>, setModes: map<string, string>): Result<Event> {
    if ParseError(s).Some? then Ok(ErrorReply(count, ParseError(s).value))
    else
      match Decoders.DecodeTone(s)
      case Err(e) => Err(e)
      case Ok(tone) =>
        if tone.Some? && tone.value != "" then Ok(Tone(tone.value))
        else ClassifyAfterTone(s, count, displayModes, setModes)
  }

  /** The rules after the tone rule: the menu family, then the scroll text. */
  function ClassifyAfterTone(s: string, count: nat, displayModes: map<string, string>, setModes: map<string, string>): Result<Event> {
    match DecodeGehLine(s)
    case Err(e) => Err(e)
    case Ok(geh) =>
      if geh.Some? && geh.value != "" then Ok(Menu(geh.value))
      else if ScrollText(s).Some? && ScrollText(s).value != "" then Ok(Scroll(ScrollText(s).value))
      else ClassifyLate(s, count, displayModes, setModes)
  }

  /** No error reply has any second character but "0". */
  lemma ParseErrorNone(s: string)
    requires |s| >= 2 && s[1] != '0'
    ensures ParseError(s).None?
  {
  }

  /** No tone line starts with anything but "T" or "B". */
  lemma ToneNone(s: string)
    requires |s| >= 1 && s[0] != 'T' && s[0] != 'B'
    ensures Decoders.DecodeTone(s) == Ok(None)
  {
  }

  /** A tone line's second character is "R", "A" or "O", and its text is never empty. */
  lemma ToneLineShape(s: string)
    requires Decoders.DecodeTone(s).Ok? && Decoders.DecodeTone(s).value.Some?
    ensures |s| >= 2 && s[1] in {'R', 'A', 'O'} && Decoders.DecodeTone(s).value.value != ""
  {
    if StartsWith(s, "TR") {
      assert s[1] == "TR"[1];
    } else if StartsWith(s, "BA") {
      assert s[1] == "BA"[1];
    }
  }

  /** No menu line starts with anything but "G". */
  lemma GehNone(s: string)
    requires |s| >= 1 && s[0] != 'G'
    ensures DecodeGehLine(s) == Ok(None)
  {
  }

  /** A line that is neither an error reply, a tone line nor a menu line goes on to the scroll rule. */
  lemma ReachesAfterTone(s: string, count: nat, displayModes: map<string, string>, setModes: map<string, string>)
    requires |s| >= 2 && s[0] !in {'T', 'B', 'G'} && s[1] != '0'
    ensures Classify(s, count, displayModes, setModes) == ClassifyAfterTone(s, count, displayModes, setModes)
    ensures DecodeGehLine(s) == Ok(None)
  {
    ParseErrorNone(s);
    ToneNone(s);
    GehNone(s);
  }

  lemma ModesSurround(s: string, count: nat, displayModes: map<string, string>, setModes: map<string, string>)
    requires StartsWith(s, "SR")
    ensures var code := From(s, 2);
      ClassifyModes(s, count, displayModes, setModes) ==
        if code in setModes && setModes[code] != "" then Ok(SurroundMode(setModes[code], s)) else Ok(Unhandled(count, s))
  {
    assert s[0] == 'S';
  }

  /** A line none of LM, AST, SR starts falls to the last rule. */
  lemma ModesDefault(s: string, count: nat, displayModes: map<string, string>, setModes: map<string, string>)
    requires !StartsWith(s, "LM") && !StartsWith(s, "AST") && !StartsWith(s, "SR")
    ensures ClassifyModes(s, count, displayModes, setModes) == Ok(Unhandled(count, s))
  {
  }

  /** A line none of FN, ATW, ATC, ATD, ATE starts goes on to the mode rules. */
  lemma LateToModes(s: string, count: nat, displayModes: map<string, string>, setModes: map<string, string>)
    requires !StartsWith(s, "FN") && !StartsWith(s, "ATW") && !StartsWith(s, "ATC") && !StartsWith(s, "ATD") && !StartsWith(s, "ATE")
    ensures ClassifyLate(s, count, displayModes, setModes) == ClassifyModes(s, count, displayModes, setModes)
  {
  }

  /** A line past the first eight rules is classified by the mode rules. */
  lemma ReachesModes(s: string, count: nat, displayModes: map<string, string>, setModes: map<string, string>)
    requires |s| >= 2 && s[0] !in {'T', 'B', 'G', 'F', 'A'} && s[1] != '0'
    ensures Classify(s, count, displayModes, setModes) == ClassifyModes(s, count, displayModes, setModes)
  {
    ReachesLate(s, count, displayModes, setModes);
    LateToModes(s, count, displayModes, setModes);
  }

  /** A line past the first four rules is classified by the later ones. */
  lemma ReachesLate(s: string, count: nat, displayModes: map<string, string>, setModes: map<string, string>)
    requires |s| >= 2 && s[0] !in {'T', 'B', 'G'} && s[1] != '0' && !StartsWith(s, "FL")
    ensures Classify(s, count, displayModes, setModes) == ClassifyLate(s, count, displayModes, setModes)
  {
    ParseErrorNone(s);
    ToneNone(s);
    GehNone(s);
  }

  /** A line no rule of the loop recognises. */
  predicate Unknown(s: string) {
    && ParseError(s).None?
    && !StartsWith(s, "TR") && !StartsWith(s, "BA") && s != "TO0" && s != "TO1"
    && !StartsWith(s, "GDH") && !StartsWith(s, "GBH") && !StartsWith(s, "GCH") && !StartsWith(s, "GHH") && !StartsWith(s, "GEH")
    && !StartsWith(s, "FL") && !StartsWith(s, "FN")
    && !StartsWith(s, "ATW") && !StartsWith(s, "ATC") && !StartsWith(s, "ATD") && !StartsWith(s, "ATE")
    && !StartsWith(s, "LM") && !StartsWith(s, "AST") && !StartsWith(s, "SR")
  }

  /** Only the level of a tone line, a short GEH line and an AST line can raise. */
  lemma ClassifyRaises(s: string, count: nat, displayModes: map<string, string>, setModes: map<string, string>)
    requires Classify(s, count, displayModes, setModes).Err?
    ensures StartsWith(s, "TR") || StartsWith(s, "BA") || (StartsWith(s, "GEH") && |s| < 6) || StartsWith(s, "AST")
  {
    Decoders.DecodeToneRaises(s);
    DecodeGehLineAgrees(s);
  }

  /** The five error replies are reported with the line count. */
  lemma ClassifyError(s: string, count: nat, displayModes: map<string, string>, setModes: map<string, string>)
    requires s in {"E02", "E03", "E04", "E06", "B00"}
    ensures Classify(s, count, displayModes, setModes) == Ok(ErrorReply(count, ParseError(s).value))
    ensures ParseError(s).value != ""
  {
    ParseErrorCodes(s);
  }

  /** A tone line with a numeric level, or TO0/TO1, is reported as its tone text. */
  lemma ClassifyTone(s: string, count: nat, displayModes: map<string, string>, setModes: map<string, string>)
    requires Decoders.DecodeTone(s).Ok? && Decoders.DecodeTone(s).value.Some?
    ensures Classify(s, count, displayModes, setModes) == Ok(Tone(Decoders.DecodeTone(s).value.value))
  {
    ToneLineShape(s);
    ParseErrorNone(s);
  }

  /** A menu line is reported as its text. */
  lemma ClassifyMenu(s: string, count: nat, displayModes: map<string, string>, setModes: map<string, string>)
    requires DecodeGehLine(s).Ok? && DecodeGehLine(s).value.Some?
    ensures Classify(s, count, displayModes, setModes) == Ok(Menu(DecodeGehLine(s).value.value))
  {
    DecodeGehLineAgrees(s);
    assert s[0] == 'G' && s[1] in {'D', 'B', 'C', 'H', 'E'};
    ParseErrorNone(s);
    ToneNone(s);
  }

  /** An FL line with a payload shows its scroll text; with an empty payload it falls through to the last rule. */
  lemma ClassifyScroll(s: string, count: nat, displayModes: map<string, string>, setModes: map<string, string>)
    requires StartsWith(s, "FL")
    ensures |s| > 4 ==> Classify(s, count, displayModes, setModes) == Ok(Scroll(HexPairs(From(s, 4))))
    ensures |s| <= 4 ==> Classify(s, count, displayModes, setModes) == Ok(Unhandled(count, s))
  {
    assert s[0] == 'F' && s[1] == 'L';
    ReachesAfterTone(s, count, displayModes, setModes);
    ScrollTextEmpty(From(s, 4));
    if |s| <= 4 {
      LateToModes(s, count, displayModes, setModes);
      ModesDefault(s, count, displayModes, setModes);
    }
  }

  /** An FN line always names an input, "unknown (<line>)" when the code is not in the table; it never raises. */
  lemma ClassifyInput(s: string, count: nat, displayModes: map<string, string>, setModes: map<string, string>)
    requires StartsWith(s, "FN")
    ensures Classify(s, count, displayModes, setModes) == Ok(Input(Get(InputMap, From(s, 2), "unknown (" + s + ")")))
  {
    assert s[0] == 'F' && s[1] == 'N';
    ReachesLate(s, count, displayModes, setModes);
  }

  /** The loudness, eq and standing-wave flags are on exactly when the line is the prefix followed by "1". */
  lemma ClassifyFlag(s: string, count: nat, displayModes: map<string, string>, setModes: map<string, string>)
    requires StartsWith(s, "ATW") || StartsWith(s, "ATC") || StartsWith(s, "ATD")
    ensures Classify(s, count, displayModes, setModes).Ok? && Classify(s, count, displayModes, setModes).value.Flag?
    ensures Classify(s, count, displayModes, setModes).value.on <==> s in {"ATW1", "ATC1", "ATD1"}
    ensures Classify(s, count, displayModes, setModes).value.feature ==
      if StartsWith(s, "ATW") then "loudness" else if StartsWith(s, "ATC") then "eq" else "standing wave"
  {
    assert s[0] == 'A' && s[1] == 'T';
    ReachesLate(s, count, displayModes, setModes);
  }

  /** An ATE line reports the phase-control setting of the text after the prefix. */
  lemma ClassifyPhase(s: string, count: nat, displayModes: map<string, string>, setModes: map<string, string>)
    requires StartsWith(s, "ATE")
    ensures Classify(s, count, displayModes, setModes) == Ok(PhaseControl(PhaseSetting(From(s, 3))))
  {
    assert s[0] == 'A' && s[1] == 'T' && s[2] == 'E';
    ReachesLate(s, count, displayModes, setModes);
  }

  /** An LM line always reports a listening mode, whatever the display table holds. */
  lemma ClassifyListeningMode(s: string, count: nat, displayModes: map<string, string>, setModes: map<string, string>)
    requires StartsWith(s, "LM")
    ensures Classify(s, count, displayModes, setModes) == Ok(ListeningMode(TranslateMode(s, displayModes).value, s))
  {
    assert s[0] == 'L' && s[1] == 'M';
    ReachesModes(s, count, displayModes, setModes);
  }

  /** An AST line is reported as its audio status, or raises what `decodeAST` raises. */
  lemma ClassifyAudio(s: string, count: nat, displayModes: map<string, string>, setModes: map<string, string>)
    requires StartsWith(s, "AST")
    ensures DecodeAstLine(s).Ok? ==> Classify(s, count, displayModes, setModes) == Ok(AudioStatus(DecodeAstLine(s).value.value))
    ensures DecodeAstLine(s).Err? ==> Classify(s, count, displayModes, setModes) == Err(DecodeAstLine(s).error)
  {
    assert s[0] == 'A' && s[1] == 'S' && s[2] == 'T';
    ReachesLate(s, count, displayModes, setModes);
    LateToModes(s, count, displayModes, setModes);
    DecodeAstLineOk(s);
  }

  /** An SR line reports a surround mode only when the set table maps its code to a non-empty name; otherwise it is unhandled. */
  lemma ClassifySurround(s: string, count: nat, displayModes: map<string, string>, setModes: map<string, string>)
    requires StartsWith(s, "SR")
    ensures var code := From(s, 2);
      Classify(s, count, displayModes, setModes) ==
        if code in setModes && setModes[code] != "" then Ok(SurroundMode(setModes[code], s)) else Ok(Unhandled(count, s))
  {
    assert s[0] == 'S' && s[1] == 'R';
    ReachesModes(s, count, displayModes, setModes);
    ModesSurround(s, count, displayModes, setModes);
  }

  /** Any other line is printed with its count. */
  lemma ClassifyUnknown(s: string, count: nat, displayModes: map<string, string>, setModes: map<string, string>)
    requires Unknown(s)
    ensures Classify(s, count, displayModes, setModes) == Ok(Unhandled(count, s))
  {
    Decoders.DecodeToneNone(s);
  }

  // ---------------------------------------------------------------------------
  // read_loop over a finite run of lines

  /**
   * The events `read_loop` prints for these lines (line k is counted k + 1),
   * and the exception that ends the reader thread, if one does.
   */
  function ReadRun(lines: seq<string>, displayModes: map<string, string>, setModes: map<string, string>): (seq<Event>, Option<Exception>)
    decreases |lines|
  {
    if lines == [] then ([], None)
    else
      var before := ReadRun(lines[..|lines| - 1], displayModes, setModes);
      if before.1.Some? then before
      else
        match Classify(lines[|lines| - 1], |lines|, displayModes, setModes)
        case Err(e) => (before.0, Some(e))
        case Ok(event) => (before.0 + [event], None)
  }

  /** The run ends early exactly when a line raises. */
  lemma {:induction false} ReadRunLength(lines: seq<string>, displayModes: map<string, string>, setModes: map<string, string>)
    ensures |ReadRun(lines, displayModes, setModes).0| <= |lines|
    ensures ReadRun(lines, displayModes, setModes).1.None? <==> |ReadRun(lines, displayModes, setModes).0| == |lines|
    decreases |lines|
  {
    if lines != [] {
      ReadRunLength(lines[..|lines| - 1], displayModes, setModes);
    }
  }

  /** Event k is the classification of line k with count k + 1. */
  lemma {:induction false} ReadRunEvents(lines: seq<string>, displayModes: map<string, string>, setModes: map<string, string>, k: nat)
    requires k < |ReadRun(lines, displayModes, setModes).0|
    ensures k < |lines| && Classify(lines[k], k + 1, displayModes, setModes) == Ok(ReadRun(lines, displayModes, setModes).0[k])
    decreases |lines|
  {
    ReadRunLength(lines, displayModes, setModes);
    var init := lines[..|lines| - 1];
    var before := ReadRun(init, displayModes, setModes);
    ReadRunLength(init, displayModes, setModes);
    if k < |before.0| {
      ReadRunEvents(init, displayModes, setModes, k);
      assert init[k] == lines[k];
    }
  }

  /** A run that raises reports the exception of the first line that was not shown. */
  lemma {:induction false} ReadRunFailure(lines: seq<string>, displayModes: map<string, string>, setModes: map<string, string>)
    requires ReadRun(lines, displayModes, setModes).1.Some?
    ensures var (events, failure) := ReadRun(lines, displayModes, setModes);
      |events| < |lines| && Classify(lines[|events|], |events| + 1, displayModes, setModes) == Err(failure.value)
    decreases |lines|
  {
    ReadRunLength(lines, displayModes, setModes);
    var init := lines[..|lines| - 1];
    var before := ReadRun(init, displayModes, setModes);
    ReadRunLength(init, displayModes, setModes);
    if before.1.Some? {
      ReadRunFailure(init, displayModes, setModes);
      assert init[|before.0|] == lines[|before.0|];
    }
  }

  /** Once a prefix of the lines has raised, later lines change nothing. */
  lemma {:induction false} ReadRunStops(lines: seq<string>, n: nat, displayModes: map<string, string>, setModes: map<string, string>)
    requires n <= |lines| && ReadRun(lines[..n], displayModes, setModes).1.Some?
    ensures ReadRun(lines, displayModes, setModes) == ReadRun(lines[..n], displayModes, setModes)
    decreases |lines| - n
  {
    if n < |lines| {
      var init := lines[..|lines| - 1];
      assert init[..n] == lines[..n];
      ReadRunStops(init, n, displayModes, setModes);
    } else {
      assert lines[..n] == lines;
    }
  }

  /** `read_loop` on a finite run of lines: it counts each line, classifies it, and stops at the first exception. */
  method ReadLoop(lines: seq<string>, displayModes: map<string, string>, setModes: map<string, string>)
    returns (events: seq<Event>, failure: Option<Exception>)
    ensures (events, failure) == ReadRun(lines, displayModes, setModes)
  {
    events, failure := [], None;
    var count := 0;
    while count < |lines|
      invariant 0 <= count <= |lines|
      invariant ReadRun(lines[..count], displayModes, setModes) == (events, None)
    {
      count := count + 1;
      var s := lines[count - 1];
      assert lines[..count][..count - 1] == lines[..count - 1];
      match Classify(s, count, displayModes, setModes)
      case Err(e) =>
        failure := Some(e);
        ReadRunStops(lines, count, displayModes, setModes);
        return;
      case Ok(event) =>
        events := events + [event];
    }
    assert lines[..count] == lines;
  }

  // ---------------------------------------------------------------------------
  // write_loop: one console command

  /** What `write_loop` does with one typed line. */
  datatype Action =
    | Quit
    | Help
    | Send(commands: seq<string>)
    | UnknownMode(command: string)
    | Nothing

  /** `second_arg`: the second space-separated word, stripped, or "" when there is none. */
  function SecondArg(cmd: string): string {
    var l := Split(cmd, ' ');
    if |l| < 2 then "" else Strip(l[1])
  }

  /** The second word runs from after the first space to the next space or the end. */
  lemma SecondArgSpec(cmd: string)
    ensures ' ' !in cmd ==> SecondArg(cmd) == ""
    ensures ' ' in cmd ==>
      var rest := cmd[IndexOf(cmd, ' ') + 1..];
      SecondArg(cmd) == Strip(if ' ' in rest then rest[..IndexOf(rest, ' ')] else rest)
  {
    if ' ' in cmd {
      SplitFirst(cmd, ' ');
      var rest := cmd[IndexOf(cmd, ' ') + 1..];
      SplitFirst(rest, ' ');
      assert Split(cmd, ' ')[1] == Split(cmd, ' ')[1..][0];
    }
  }

  /** `change_mode`: the words after the first, re-joined by single spaces, looked up in the inverse mode table. */
  function ChangeMode(command: string, inverseModes: map<string, string>): Action {
    var l := Split(command, ' ');
    if |l| < 2 then Nothing
    else
      var m := Get(inverseModes, Join(l[1..], ' '), "");
      if m != "" then Send([m + "SR"]) else UnknownMode(command)
  }

  /** The key looked up is exactly the text after the first space; a hit sends its code with "SR". */
  lemma ChangeModeSpec(command: string, inverseModes: map<string, string>)
    ensures ' ' !in command ==> ChangeMode(command, inverseModes) == Nothing
    ensures ' ' in command ==>
      var key := command[IndexOf(command, ' ') + 1..];
      ChangeMode(command, inverseModes) ==
        if key in inverseModes && inverseModes[key] != "" then Send([inverseModes[key] + "SR"]) else UnknownMode(command)
  {
    if ' ' in command {
      JoinTail(command, ' ');
    }
  }

  /** The words `write_loop` treats specially before consulting the command table. */
  predicate Special(command: string) {
    command in {"quit", "exit", "status", "help", "?"} || StartsWith(command, "select") || StartsWith(command, "display")
  }

  /** One pass of `write_loop`'s body on a typed line: strip it, then dispatch. */
  function Resolve(input: string, inverseModes: map<string, string>): Action {
    Dispatch(Strip(input), CommandMap, inverseModes)
  }

  /** The dispatch on the stripped command, first match wins. */
  function Dispatch(command: string, commands: map<string, string>, inverseModes: map<string, string>): Action {
    if command == "quit" || command == "exit" then Quit
    else if command == "status" then Send(StatusQueries)
    else if command == "help" || command == "?" then Help
    else if StartsWith(command, "select") then Send([RJust(SecondArg(command), 2, '0') + "GFI"])
    else if StartsWith(command, "display") then Send([RJust(SecondArg(command), 5, '0') + "GCI"])
    else if Get(commands, command, "") != "" then Send([commands[command]])
    else if StartsWith(command, "mode") then ChangeMode(command, inverseModes)
    else if command != "" then Send([command])
    else Nothing
  }

  /** The loop stops exactly on "quit" or "exit". */
  lemma DispatchQuit(command: string, commands: map<string, string>, inverseModes: map<string, string>)
    ensures Dispatch(command, commands, inverseModes) == Quit <==> command in {"quit", "exit"}
  {
    if command !in {"quit", "exit"} && StartsWith(command, "mode") {
      ChangeModeSpec(command, inverseModes);
    }
  }

  /** Only "status" sends the five status queries, and only "help" or "?" asks for the command list. */
  lemma DispatchStatusHelp(command: string, commands: map<string, string>, inverseModes: map<string, string>)
    ensures Dispatch(command, commands, inverseModes) == Send(StatusQueries) <==> command == "status"
    ensures Dispatch(command, commands, inverseModes) == Help <==> command in {"help", "?"}
  {
    if !Special(command) && StartsWith(command, "mode") {
      ChangeModeSpec(command, inverseModes);
    }
  }

  /** No group of the table has an empty word. */
  lemma EmptyNotCommand()
    ensures "" !in CommandMap
  {
    EmptyNotAmpOrTone();
    EmptyNotModeOrInput();
    EmptyNotNetworkOrTuner();
  }

  lemma EmptyNotAmpOrTone()
    ensures "" !in AmpCommands && "" !in ToneCommands
  {
  }

  lemma EmptyNotModeOrInput()
    ensures "" !in ModeCommands && "" !in InputCommands
  {
  }

  lemma EmptyNotNetworkOrTuner()
    ensures "" !in NetworkCommands && "" !in TunerCommands
  {
  }

  /** Nothing is sent for a blank line, nor for a bare mode word with no argument. */
  lemma DispatchNothing(command: string, inverseModes: map<string, string>)
    ensures command == "" ==> Dispatch(command, CommandMap, inverseModes) == Nothing
    ensures Dispatch(command, CommandMap, inverseModes) == Nothing ==> command == "" || (StartsWith(command, "mode") && ' ' !in command)
  {
    EmptyNotCommand();
    DispatchSilent(command, CommandMap, inverseModes);
  }

  lemma DispatchSilent(command: string, commands: map<string, string>, inverseModes: map<string, string>)
    requires "" !in commands
    ensures command == "" ==> Dispatch(command, commands, inverseModes) == Nothing
    ensures Dispatch(command, commands, inverseModes) == Nothing ==> command == "" || (StartsWith(command, "mode") && ' ' !in command)
  {
    if Dispatch(command, commands, inverseModes) == Nothing && command != "" {
      ChangeModeSpec(command, inverseModes);
    }
  }

  /** A receiver command made of the argument left-padded with "0" to the width, then the suffix. */
  predicate Padded(x: string, arg: string, width: nat, suffix: string) {
    && |x| == (if |arg| < width then width else |arg|) + |suffix|
    && x[|x| - |suffix|..] == suffix
    && x[|x| - |suffix| - |arg|..|x| - |suffix|] == arg
    && forall i :: 0 <= i < |x| - |suffix| - |arg| ==> x[i] == '0'
  }

  lemma PaddedRJust(arg: string, width: nat, suffix: string)
    ensures Padded(RJust(arg, width, '0') + suffix, arg, width, suffix)
  {
    var r := RJust(arg, width, '0');
    var x := r + suffix;
    assert x[|x| - |suffix|..] == suffix;
    assert x[|x| - |suffix| - |arg|..|x| - |suffix|] == r[|r| - |arg|..];
  }

  /** select sends the second word left-padded with "0" to two characters, then "GFI". */
  lemma DispatchSelect(command: string, commands: map<string, string>, inverseModes: map<string, string>)
    requires StartsWith(command, "select")
    ensures Dispatch(command, commands, inverseModes).Send? && |Dispatch(command, commands, inverseModes).commands| == 1
    ensures Padded(Dispatch(command, commands, inverseModes).commands[0], SecondArg(command), 2, "GFI")
  {
    var x := RJust(SecondArg(command), 2, '0') + "GFI";
    DispatchPadded(command, commands, inverseModes, "select", x);
    PaddedRJust(SecondArg(command), 2, "GFI");
  }

  /** display sends the second word left-padded with "0" to five characters, then "GCI". */
  lemma DispatchDisplay(command: string, commands: map<string, string>, inverseModes: map<string, string>)
    requires StartsWith(command, "display")
    ensures Dispatch(command, commands, inverseModes).Send? && |Dispatch(command, commands, inverseModes).commands| == 1
    ensures Padded(Dispatch(command, commands, inverseModes).commands[0], SecondArg(command), 5, "GCI")
  {
    var x := RJust(SecondArg(command), 5, '0') + "GCI";
    DispatchPadded(command, commands, inverseModes, "display", x);
    PaddedRJust(SecondArg(command), 5, "GCI");
  }

  /** The select and display rules come before the table and after the exact words. */
  lemma DispatchPadded(command: string, commands: map<string, string>, inverseModes: map<string, string>, word: string, x: string)
    requires word in {"select", "display"} && StartsWith(command, word)
    requires x == if word == "select" then RJust(SecondArg(command), 2, '0') + "GFI" else RJust(SecondArg(command), 5, '0') + "GCI"
    ensures Dispatch(command, commands, inverseModes) == Send([x])
  {
    assert command !in {"quit", "exit", "status", "help", "?"} by {
      assert command[0] == word[0] && command[1] == word[1];
    }
    assert word == "display" ==> !StartsWith(command, "select") by {
      assert command[0] == word[0];
    }
  }

  /** A table word that is not special sends its receiver command, before any mode-prefix handling. */
  lemma DispatchCommand(command: string, commands: map<string, string>, inverseModes: map<string, string>)
    requires command in commands && commands[command] != "" && !Special(command)
    ensures Dispatch(command, commands, inverseModes) == Send([commands[command]])
  {
  }

  /** A mode line that is not a table word goes to `change_mode`. */
  lemma DispatchMode(command: string, commands: map<string, string>, inverseModes: map<string, string>)
    requires StartsWith(command, "mode") && command !in commands
    ensures Dispatch(command, commands, inverseModes) == ChangeMode(command, inverseModes)
  {
    assert command[0] == 'm';
    assert !Special(command);
  }

  /** Any other non-empty line is sent as typed. */
  lemma DispatchRaw(command: string, commands: map<string, string>, inverseModes: map<string, string>)
    requires command != "" && !Special(command) && command !in commands && !StartsWith(command, "mode")
    ensures Dispatch(command, commands, inverseModes) == Send([command])
  {
  }

  /** "mode" is in the mode group and in no later group, so the table maps it to the mode query. */
  lemma ModeQueryCommand()
    ensures "mode" in CommandMap && CommandMap["mode"] == "?S"
  {
    ModeInModeGroup();
    ModeNotInLaterGroups();
  }

  lemma ModeInModeGroup()
    ensures "mode" in ModeCommands && ModeCommands["mode"] == "?S"
  {
  }

  lemma ModeNotInLaterGroups()
    ensures "mode" !in InputCommands && "mode" !in NetworkCommands && "mode" !in TunerCommands
  {
  }

  /** The exact word "mode" is a table word: it queries the mode instead of changing it. */
  lemma DispatchModeQuery(inverseModes: map<string, string>)
    ensures Dispatch("mode", CommandMap, inverseModes) == Send(["?S"])
  {
    ModeQueryCommand();
    DispatchCommand("mode", CommandMap, inverseModes);
  }

  // ---------------------------------------------------------------------------
  // write_loop over a finite run of typed lines

  /** `send`: each command goes on the wire followed by CR LF. */
  function Wire(commands: seq<string>): (r: seq<string>)
    ensures |r| == |commands|
    ensures forall i :: 0 <= i < |r| ==> r[i] == commands[i] + "\r\n"
  {
    seq(|commands|, i requires 0 <= i < |commands| => commands[i] + "\r\n")
  }

  /** The action for each typed line. */
  function Actions(inputs: seq<string>, inverseModes: map<string, string>): seq<Action> {
    seq(|inputs|, k requires 0 <= k < |inputs| => Resolve(inputs[k], inverseModes))
  }

  /** The wire lines sent for a run of actions, and whether the run stopped on quit. */
  function Perform(actions: seq<Action>): (seq<string>, bool)
    decreases |actions|
  {
    if actions == [] then ([], false)
    else
      var before := Perform(actions[..|actions| - 1]);
      if before.1 then before
      else
        match actions[|actions| - 1]
        case Quit => (before.0, true)
        case Send(commands) => (before.0 + Wire(commands), false)
        case _ => before
  }

  /** A run stops exactly when one of its actions is quit. */
  lemma {:induction false} PerformQuit(actions: seq<Action>)
    ensures Perform(actions).1 <==> exists k :: 0 <= k < |actions| && actions[k].Quit?
    decreases |actions|
  {
    if actions != [] {
      var init := actions[..|actions| - 1];
      PerformQuit(init);
      if Perform(init).1 {
        var k :| 0 <= k < |init| && init[k].Quit?;
        assert actions[k] == init[k];
      }
      if exists k :: 0 <= k < |actions| && actions[k].Quit? {
        var k :| 0 <= k < |actions| && actions[k].Quit?;
        if k < |init| {
          assert init[k] == actions[k];
        }
      }
    }
  }

  /** The wire lines are exactly the commands of the Send actions before the first quit, in order, each with CR LF. */
  lemma {:induction false} PerformSends(actions: seq<Action>)
    ensures !Perform(actions).1 ==> Perform(actions).0 == Wire(SentCommands(actions))
    decreases |actions|
  {
    if actions != [] {
      var init := actions[..|actions| - 1];
      PerformSends(init);
      if !Perform(actions).1 {
        WireAppend(SentCommands(init), Commands(actions[|actions| - 1]));
      }
    }
  }

  /** The commands an action sends. */
  function Commands(a: Action): seq<string> {
    if a.Send? then a.commands else []
  }

  /** All commands the actions send, in order. */
  function SentCommands(actions: seq<Action>): seq<string>
    decreases |actions|
  {
    if actions == [] then [] else SentCommands(actions[..|actions| - 1]) + Commands(actions[|actions| - 1])
  }

  lemma WireAppend(a: seq<string>, b: seq<string>)
    ensures Wire(a + b) == Wire(a) + Wire(b)
  {
  }

  /** Once a run has quit, later actions change nothing. */
  lemma {:induction false} PerformStops(actions: seq<Action>, n: nat)
    requires n <= |actions| && Perform(actions[..n]).1
    ensures Perform(actions) == Perform(actions[..n])
    decreases |actions| - n
  {
    if n < |actions| {
      var init := actions[..|actions| - 1];
      assert init[..n] == actions[..n];
      PerformStops(init, n);
    } else {
      assert actions[..n] == actions;
    }
  }

  /** The loop stops exactly when some typed line is "quit" or "exit". */
  lemma WriteLoopQuits(inputs: seq<string>, inverseModes: map<string, string>)
    ensures Perform(Actions(inputs, inverseModes)).1 <==> exists k :: 0 <= k < |inputs| && Strip(inputs[k]) in {"quit", "exit"}
  {
    var actions := Actions(inputs, inverseModes);
    PerformQuit(actions);
    forall k | 0 <= k < |inputs| ensures actions[k].Quit? <==> Strip(inputs[k]) in {"quit", "exit"} {
      DispatchQuit(Strip(inputs[k]), CommandMap, inverseModes);
    }
  }

  /** `write_loop` on a finite run of typed lines: resolve each, send what it yields, stop on quit. */
  method WriteLoop(inputs: seq<string>, inverseModes: map<string, string>) returns (sent: seq<string>, quit: bool)
    ensures (sent, quit) == Perform(Actions(inputs, inverseModes))
  {
    ghost var actions := Actions(inputs, inverseModes);
    sent, quit := [], false;
    var i := 0;
    while i < |inputs|
      invariant 0 <= i <= |inputs|
      invariant Perform(actions[..i]) == (sent, false)
    {
      var action := Resolve(inputs[i], inverseModes);
      assert action == actions[i];
      i := i + 1;
      assert actions[..i][..i - 1] == actions[..i - 1];
      if action.Quit? {
        quit := true;
        PerformStops(actions, i);
        return;
      } else if action.Send? {
        sent := sent + Wire(action.commands);
      }
    }
    assert actions[..i] == actions;
  }
}
