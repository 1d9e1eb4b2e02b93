# Pioneer AV receiver command-line client, modelled in Dafny

The client talks to a Pioneer AV receiver over its line-oriented telnet
protocol. Two loops share one connection:

- The **read loop** classifies every status line the receiver sends. It
  recognises error codes, tone levels, on-screen menu lines, the front-panel
  scroll text, the selected input, loudness/EQ/standing-wave flags, phase
  control, listening and surround modes, and the audio-status (AST) block.
- The **write loop** turns each typed command into wire commands. A command
  can be quit/exit, status, help, select, display, a word from the command
  table, "mode <name>" or a raw command.

Beside the loops sit the decoders library and the input-source registry.
The decoders turn FL/GEH/VTC/AST/VST/tone lines into text. The registry maps
source codes to names and names (with aliases) to select commands.

The project has six Dafny modules:

- `Py` (`py.dfy`): the few Python string and integer built-ins the client
  relies on. These are clamped slicing, `startswith`, ASCII `lower`/`strip`,
  `split(" ")`/`join`, `rjust`, string comparison, `int()`, `str(int)`,
  `bytes.fromhex` and ASCII decoding. Exceptions these raise are `Result`
  errors, never preconditions.
- `Decoders` (`decoders.dfy`): `decoders.py`. `decode_ast` is a method with
  a loop, proved against the function `AstSpec`.
- `Sources` (`sources.dfy`): `sources.py`. Each operation of the registry is
  a pure function on a `Registry` value. The class `SourceMap` has the
  source's three dictionaries as fields, and each of its methods is proved
  to move the state exactly as its function does.
- `Telnet` (`telnet.py`):
  - `decodeFL`, with its quoting loop and `urllib.unquote`;
  - `parseError`, `decodeGeh`, the client's own `decodeAST`/`decode_ais`/`decode_aif` and `translateMode`;
  - the read-loop dispatch (`Classify`), run over a finite sequence of lines (`ReadRun`, `ReadLoop`);
  - the write-loop dispatch (`Dispatch`, `change_mode`, `second_arg`), run over a finite sequence of typed lines (`Perform`, `WriteLoop`).
- `TestSources` and `TestDecode`: the repository's unit tests, stated as lemmas about the defaults.

Notes on the code as written, which the model follows:

- `decode_vst` builds 13 report lines, not 12.
- The read loop has no power, learning (RGB), VTC or VST rule.
- The write loop has no volume-step rule.
- The client's `decodeAST` reads every flag position, so a short AST line
  raises `IndexError` instead of degrading.
- An FL line whose payload is empty decodes to empty text. Empty text is
  falsy, so the line falls through to the later rules.
- GBH and GHH lines are sliced from position 2. So the "max list number"
  text keeps the letter H, and a GHH source code never matches the table
  (`Decoders.DecodeGbhGhh`).

## Model

| member | source | states |
|---|---|---|
| Decoders.DecodeFlNone | decoders.py:9-12 | decode_fl gives None exactly when the line does not start with "FL" |
| Decoders.DecodeFlPayload | decoders.py:13-17 | for a payload without spaces, fromhex succeeds iff it has even length and only hex digits; the decode succeeds iff also every byte is ASCII; then the text is half as long as the payload |
| Decoders.DecodeFlRoundTrip | decoders.py:9-17 | hex-encoding any ASCII text behind "FL" and a two-character marker decodes back to that text |
| Decoders.DecodeGehNone | decoders.py:20-32 | decode_geh gives None exactly when the line has none of the prefixes GDH, GBH, GCH, GHH, GEH |
| Decoders.DecodeGdh | decoders.py:21-23 | a GDH line reports items first to last of total, from the 5-, 5- and rest-character fields |
| Decoders.DecodeGch | decoders.py:26-27 | a GCH line gives the screen-type caption of its two-character code (or "unknown") followed by " - " and the whole line |
| Decoders.DecodeGehField | decoders.py:31-39 | a GEH line gives the track-field caption of its type code (or "unknown (code)") followed by the info text |
| Decoders.DecodeGbhGhh | decoders.py:24-30 | GBH keeps the text from position 2; a GHH line always reports "source: unknown" because its key starts with H |
| Decoders.DecodeVtcCodes | decoders.py:78-94 | a VTC code gives its resolution name or "unknown VTC resolution"; a line without VTC fails the assertion |
| Decoders.DecodeAifTotal | decoders.py:143-156 | decode_aif knows exactly the codes 00-07, with 32kHz, 192kHz and "---" at the ends |
| Decoders.DecodeAisCodes | decoders.py:158-197 | for fields of up to two characters: ANALOG iff 00-02, DTS-HD High Resolution iff 20-26, "unknown" iff the code is not listed |
| Decoders.DecodeAisAnalog | decoders.py:159-160 | the string range test "00" <= s <= "02" accepts exactly 00, 01, 02 |
| Decoders.DecodeAisHighResolution | decoders.py:193-194 | the range test "20" <= s <= "26" accepts exactly 20 to 26 |
| Decoders.DecodeAisUnknown | decoders.py:158-197 | "unknown" exactly for the codes outside the listed set |
| Decoders.DecodeAisLongField | decoders.py:159-197 | string comparison lets "01x" and "25x" through the range tests, while "021" is unknown |
| Decoders.DbLevelDigits | decoders.py:199-203 | two digits n give the text of 6 - n followed by "dB" |
| Decoders.DbLevelFlat | decoders.py:199-203 | level 06 is 0dB |
| Decoders.DbLevelNegative | decoders.py:199-203 | level 12 is -6dB |
| Decoders.DbLevelReadsBack | decoders.py:199-203 | whenever db_level succeeds, its text ends in "dB" and reads back as 6 minus the parsed level |
| Decoders.DecodeToneNone | decoders.py:205-215 | decode_tone gives None exactly for lines that are neither TR/BA-prefixed nor TO0/TO1; TO0/TO1 are tone off/on |
| Decoders.DecodeToneRaises | decoders.py:205-210 | decode_tone raises ValueError exactly when a TR/BA line's level field is not an integer |
| Decoders.DecodeToneOnOff | decoders.py:211-214 | TO0 reads as tone off and TO1 as tone on |
| Decoders.DecodeToneLevel | decoders.py:207-210 | TR/BA with two digits report treble/bass at 6 - n dB |
| Decoders.ChannelOffsets | decoders.py:97-114 | the channel table has 16 entries at positions 5 to 20 |
| Decoders.ChannelLabelsDistinct | decoders.py:97-114 | the channel names are pairwise distinct |
| Decoders.ScanChannels | decoders.py:124-139 | the channel loop fails with ValueError exactly when a flag in reach is not a digit, else reports the flagged channels in table order |
| Decoders.DecodeAst | decoders.py:116-140 | decode_ast agrees with the specification AstSpec on every line |
| Decoders.ReportedAt | decoders.py:124-131 | a channel is reported iff it is within the scanned prefix and its flag is in reach and non-zero |
| Decoders.AstChannels | decoders.py:116-139 | channel j is an input iff the character at its position is a non-zero digit, and an output iff the one 21 further is; a short line reports fewer channels |
| Decoders.AstErrors | decoders.py:118-139 | AssertionError iff the line lacks AST; ValueError iff some flag in reach is not a digit |
| Decoders.VstFieldsTile | decoders.py:286-313 | the 13 VST fields tile positions 1 to 16 without gap or overlap |
| Decoders.VstFieldsInPayload | decoders.py:286-313 | every VST field lies inside the padded payload |
| Decoders.DecodeVstOutcome | decoders.py:280-315 | None iff the line lacks VST; IndexError iff it is shorter than 19; a report otherwise |
| Decoders.VstFieldValue | decoders.py:287-313 | each report line is the field's caption and its table value, or "Unknown" |
| Sources.ToMapKeys | sources.py:55-58 | the dictionary built from the items has exactly the items' codes as keys |
| Sources.SeedSources | sources.py:55-58 | init_from_map stores every item over the previous names and leaves aliases alone |
| Sources.SeedInverseKeys | sources.py:55-58 | init_from_map adds exactly the lower-cased item names to the inverse map and keeps other entries |
| Sources.SeedInverseUnique | sources.py:56-58 | a name no other item shares maps to its own code + "FN" |
| Sources.InitFromTables | sources.py:55-60 | starting empty: the names are the items, the aliases are the eight built-in pairs, the inverse map holds the item names plus at most the alias names |
| Sources.InitFromEntries | sources.py:55-60 | with distinct codes and names, every item can be looked up and its lower-cased name selects code + "FN" |
| Sources.CheckAliasesOnlyAdds | sources.py:104-111 | check_aliases changes only the inverse map, and only by adding one of the two names |
| Sources.CheckAliasesPropagates | sources.py:104-111 | it changes the registry iff exactly one of the names resolves, and then both select the same command |
| Sources.CheckAliasesBothOrNeither | sources.py:104-111 | when both or neither name resolves, nothing changes |
| Sources.CheckAliasesAsWrittenAgrees | sources.py:104-111 | the code as written raises NameError exactly on the second branch and otherwise agrees with the corrected version |
| Sources.AddAliasAsWrittenAgrees | sources.py:97-111 | add_alias as written raises NameError exactly when the second lower-cased name has no select command and the first resolves; otherwise it ends where the corrected add_alias does |
| Sources.AddDefaultAliasesAsWrittenAgrees | sources.py:113-117 | add_aliases as written either raises NameError or ends where the corrected add_aliases does |
| Sources.AddAliasSymmetric | sources.py:97-102 | add_alias records the lower-cased names as aliases of each other and keeps the other aliases |
| Sources.AddAliasOnlyAdds | sources.py:97-102 | add_alias leaves the names alone, sets the two alias entries and only adds to the inverse map |
| Sources.AddAliasNeither | sources.py:97-111 | aliasing two unknown names leaves the inverse map unchanged |
| Sources.AliasChain | sources.py:97-111 | aliasing a new name to a known one and a second new name to the first makes both select the known one's command |
| Sources.AddDefaultAliasesPairs | sources.py:113-117 | add_aliases sets exactly the four built-in pairs in both directions |
| Sources.AddDefaultAliasesKeeps | sources.py:113-117 | add_aliases keeps the names and only adds alias names to the inverse map |
| Sources.AddDefaultAliasesNoApple | sources.py:113-117 | when neither apple nor appletv resolves, neither is added |
| Sources.UpdateSourceCaseSensitive | sources.py:89-95 | a name with no alias only records the name and its reverse entry |
| Sources.UpdateSourceNameError | sources.py:89-95 | updating a name whose alias is unknown raises NameError as written; corrected, the alias selects the new code |
| Sources.LearnRecords | sources.py:119-124 | after learning "cc name" the code maps to the name and a changed name selects cc + "FN" |
| Sources.LearnIdempotent | sources.py:119-124 | learning the same line twice equals learning it once |
| Sources.LearnKeeps | sources.py:119-124 | learning keeps the aliases and every other code and inverse entry |
| Sources.SetSourceValid | sources.py:85-92 | storing a name and its reverse entry keeps every name selectable by a known code |
| Sources.CheckAliasesValid | sources.py:104-111 | check_aliases keeps that invariant |
| Sources.AddAliasValid | sources.py:97-102 | add_alias keeps it |
| Sources.AddDefaultAliasesValid | sources.py:113-117 | add_aliases keeps it |
| Sources.SeedValid | sources.py:55-58 | loading items keeps it |
| Sources.InitFromMapValid | sources.py:55-60 | init_from_map keeps it |
| Sources.InitialValid | sources.py:49-53 | a new SourceMap satisfies it |
| Sources.UpdatedValid | sources.py:89-95 | update_source keeps it |
| Sources.LearnValid | sources.py:119-124 | learn_input_from keeps it |
| Sources.SourceMap.constructor | sources.py:49-53 | a new map holds the default table and the default aliases, and satisfies Valid |
| Sources.SourceMap.InitFromMap | sources.py:55-60 | the state moves exactly as InitFrom (with the corrected check_aliases) says, and Valid is kept |
| Sources.SourceMap.Get | sources.py:62-63 | get returns the stored name of a code, if any |
| Sources.SourceMap.RegisterReverseSource | sources.py:85-87 | the state moves exactly as RegisterReverse says |
| Sources.SourceMap.UpdateSource | sources.py:89-95 | the state moves exactly as Updated (with the corrected check_aliases) says, and Valid is kept |
| Sources.SourceMap.AddAlias | sources.py:97-102 | the state moves exactly as WithAlias (with the corrected check_aliases) says, and Valid is kept |
| Sources.SourceMap.CheckAliases | sources.py:104-111 | the state moves exactly as Propagate, the corrected check_aliases, says |
| Sources.SourceMap.AddAliases | sources.py:113-117 | the state moves exactly as AddDefaultAliases (with the corrected check_aliases) says, and Valid is kept |
| Sources.SourceMap.LearnInputFrom | sources.py:119-124 | the state moves exactly as Learn (with the corrected check_aliases) says, and Valid is kept |
| TestSources.DefaultsDistinct | sources.py:8-38 | the default table has distinct codes and distinct lower-cased names |
| TestSources.InitialEntries | sources.py:8-58 | every default entry is looked up by its code, and its lower-cased name selects code + "FN" |
| TestSources.InitialTv | test_sources.py:7-10 | a new map has "05" named TV and "tv" selecting 05FN |
| TestSources.RegistryAliases | test_sources.py:12-18 | on any registry where tv resolves and the new names do not, the alias chain gives television and tele tv's command |
| TestSources.TestAliases | test_sources.py:12-18 | the same on a new SourceMap |
| TestSources.NoAppleCommand | sources.py:113-117 | on the defaults, apple and appletv select nothing |
| TestSources.RegistryLearnApple | sources.py:104-124 | learning "50 apple" where appletv does not resolve raises NameError as written; corrected, appletv selects 50FN |
| TestSources.LearnAppleNameError | sources.py:104-124 | learning "50 apple" on a new SourceMap raises NameError as written; corrected, appletv selects 50FN |
| TestSources.RegistryTvAlias | sources.py:97-111 | on any registry where tv selects 05FN and television nothing, add_alias("TV", "television") raises NameError as written; corrected, television selects 05FN |
| TestSources.AddTvAliasNameError | sources.py:97-111 | the same on a new SourceMap |
| TestSources.LoadAppleNameError | sources.py:55-60 | loading {"50": "APPLE"} into a new SourceMap raises NameError at the first built-in pair as written; corrected, appletv selects 50FN |
| TestSources.SeedDefaultsUnaliased | sources.py:8-58 | after loading the default table, apple, appletv, amazon, amazontv, radio and iradio select nothing |
| TestSources.SeedDefaultsRadio | sources.py:8-58 | after loading the default table, tuner selects 02FN and internet radio 38FN |
| TestSources.InitialAsWrittenOk | sources.py:49-60 | the constructor as written does not raise and ends in the same state as the corrected one |
| TestDecode.DecodeFlAppleTv | test_decode.py:7-10 | the sample FL line decodes to "   APPLETV    " |
| Telnet.ParseErrorCodes | telnet.py:144-150 | an error message exists exactly for E02, E03, E04, E06 and B00, and is never empty |
| Telnet.UnquoteQuoted | telnet.py:134-142 | unquoting the built "%xx" URL gives the hex pairs decoded, with malformed pairs kept verbatim |
| Telnet.DecodeFL | telnet.py:130-142 | the quoting loop returns None without FL, else the payload after four characters decoded pair by pair |
| Telnet.ScrollTextEmpty | telnet.py:130-142 | the scroll text is empty exactly when the payload is |
| Telnet.HexPairsValues | telnet.py:135-142 | on an even all-hex payload the text has one character per pair, with the pair's value |
| Telnet.DecodeFLAgrees | telnet.py:130-142 | wherever decoders.py's decode_fl succeeds, the client's decodeFL gives the same text |
| Telnet.DecodeGehLineAgrees | telnet.py:288-306 | the client's decodeGeh raises IndexError exactly on a GEH line shorter than 6, otherwise equals decode_geh, and never gives empty text |
| Telnet.TranslateModeTotal | telnet.py:433-438 | translateMode answers exactly for LM lines, never with empty text, and "Unknown" exactly for an unlisted or empty mode |
| Telnet.PhaseSettingTwoDigits | telnet.py:348-361 | on two digits: 00-16 give "<n>ms", 97/98/99 give AUTO/UP/DOWN, the rest "unknown" |
| Telnet.PhaseSettingStringRange | telnet.py:350-351 | the string range test also accepts "1" and "100" and rejects "0" |
| Telnet.ChannelLabelsDistinct | telnet.py:161-193 | the 16 input and 13 output channel names are distinct, the outputs being the first 13 inputs |
| Telnet.AudioFieldNames | telnet.py:205-236 | the client's decode_ais/decode_aif name a field exactly when its code is listed |
| Telnet.ReadFlagsSpec | telnet.py:161-193 | the int() flag tests succeed iff every position is present and a digit; IndexError iff the line ends first with only digits before |
| Telnet.SelectedAt | telnet.py:161-193 | a channel is listed iff its flag is set |
| Telnet.DecodeAstLineOk | telnet.py:152-195 | an AST line decodes iff it is at least 41 long and every flag position holds a digit |
| Telnet.DecodeAstLineParts | telnet.py:158-193 | the channel lists are the flags read after padding the payload by one character |
| Telnet.DecodeAstLineInputs | telnet.py:161-177 | input channel j is listed iff line character 7 + j is not '0' |
| Telnet.DecodeAstLineOutputs | telnet.py:179-192 | output channel j is listed iff line character 28 + j is not '0' |
| Telnet.DecodeAstLineShort | telnet.py:152-195 | an all-digit AST line shorter than 41 raises IndexError |
| Telnet.ClassifyRaises | telnet.py:310-375 | only TR/BA, short GEH and AST lines can raise in the read loop |
| Telnet.ClassifyError | telnet.py:316-319 | an error code is reported with the line count and its message |
| Telnet.ClassifyTone | telnet.py:320-323 | a decoded tone line is reported as a tone |
| Telnet.ClassifyMenu | telnet.py:324-327 | a decoded menu line is reported as a menu line |
| Telnet.ClassifyScroll | telnet.py:328-331 | an FL line with a payload is scroll text; one without falls through to the default |
| Telnet.ClassifyInput | telnet.py:332-335 | FN reports the input name from the table, or "unknown (line)" |
| Telnet.ClassifyFlag | telnet.py:336-347 | ATW/ATC/ATD report loudness/eq/standing wave, on exactly for the lines ending in 1 |
| Telnet.ClassifyPhase | telnet.py:348-361 | ATE reports the phase setting of its number |
| Telnet.ClassifyListeningMode | telnet.py:362-365 | LM reports the translated listening mode and the line |
| Telnet.ClassifyAudio | telnet.py:366-367 | AST reports the decoded audio status or stops with its exception |
| Telnet.ClassifySurround | telnet.py:368-373 | SR reports a listed mode, otherwise falls through to the default |
| Telnet.ClassifyUnknown | telnet.py:310-375 | any other line is reported with its count as unhandled |
| Telnet.ReadRunLength | telnet.py:310-375 | the loop reports at most one event per line, and all lines exactly when nothing was raised |
| Telnet.ReadRunEvents | telnet.py:312-375 | the k-th event is the classification of line k with count k + 1 |
| Telnet.ReadRunFailure | telnet.py:310-375 | an exception is the one raised by the first line that did not classify |
| Telnet.ReadRunStops | telnet.py:310-375 | once a prefix raised, later lines change nothing |
| Telnet.ReadLoop | telnet.py:310-375 | the loop's events and exception are those of ReadRun |
| Telnet.SecondArgSpec | telnet.py:422-426 | second_arg is the stripped second space-separated word, or empty without a space |
| Telnet.ChangeModeSpec | telnet.py:410-420 | "mode <name>" sends the mode's code + "SR" when listed, reports it unknown otherwise, and does nothing without a space |
| Telnet.DispatchQuit | telnet.py:379-382 | the loop stops exactly on quit or exit |
| Telnet.DispatchStatusHelp | telnet.py:383-389 | only status sends the five status queries; only help or ? asks for the command list |
| Telnet.DispatchNothing | telnet.py:377-408 | an empty line sends nothing; the only other silent line is a "mode" word without an argument |
| Telnet.DispatchSelect | telnet.py:390-393 | select sends its argument padded with zeros to two characters followed by GFI |
| Telnet.DispatchDisplay | telnet.py:394-397 | display sends its argument padded with zeros to five characters followed by GCI |
| Telnet.DispatchCommand | telnet.py:398-401 | for any command table, a word the earlier rules do not catch and whose entry is non-empty sends that entry |
| Telnet.DispatchMode | telnet.py:402-404 | for any command table, a word starting with "mode" that the table does not list goes to change_mode |
| Telnet.DispatchRaw | telnet.py:405-408 | for any command table, a non-empty line that no rule and no table entry catches is sent as it is |
| Telnet.DispatchSilent | telnet.py:377-408 | for any command table without an empty word, only the empty line and a bare "mode" word send nothing |
| Telnet.EmptyNotCommand | telnet.py:33-113 | the command table has no empty word |
| Telnet.ModeQueryCommand | telnet.py:64 | the table maps "mode" to the query ?S |
| Telnet.DispatchModeQuery | telnet.py:398-404 | typing "mode" alone queries the mode instead of changing it |
| Telnet.Wire | telnet.py:123-124 | send appends CR LF to every command |
| Telnet.PerformQuit | telnet.py:377-382 | the loop has quit iff some action was quit |
| Telnet.PerformSends | telnet.py:377-408 | without quit, the wire carries every sent command in order |
| Telnet.PerformStops | telnet.py:379-382 | after quit, later inputs change nothing |
| Telnet.WriteLoopQuits | telnet.py:377-382 | the loop quits iff some typed line strips to quit or exit |
| Telnet.WriteLoop | telnet.py:377-408 | the loop's output and quit flag are those of Perform on the resolved actions |

## Left out

- Telnet connection, threads, `readline` (the model receives lines with CR LF already removed), `raw_input` and `time.sleep`: lines typed and received are sequence parameters.
- Printing: `print_help`, the messages printed by the loops and decoders, `config.report` and `config.DEBUG` are left out. Each loop's outcome is a sequence of events, actions or wire strings.
- `read_from_file`, `save_to_file` and `check_exists` in sources.py: file I/O and JSON are not part of this model.
- `decode_vta` in decoders.py always returns None and is not part of this model.
- `modes_display` and `modes_set` are not part of this model. `modeDisplayMap`, `modeSetMap` and `inverseModeSetMap` are map parameters of every member that uses them.
- telnet.py's own `sourceMap`, `typeMap` and `screenTypeMap` are not restated: they have the same entries as decoders.py's tables, which the client's `decodeGeh` model reuses.
- telnet.py's strings are Python 2 byte strings; decoders.py and sources.py use Python 3 `str`. All are `seq<char>`, and `lower`, `strip` and `int()` are modelled on ASCII only, without Unicode case mapping, Unicode white space or Unicode digits.
- `Telnet.ChangeMode`: printing "Unknown <command>" on an unlisted mode is modelled as the action `UnknownMode`.
- The read loop runs forever on a live connection; the model runs it over a finite sequence of lines and stops at the first exception, which ends the thread in the source.
- The read loop's `decodeAST` prints as it goes, so output produced before an exception is not modelled; `DecodeAstLine` returns the exception alone.
- `Telnet.DispatchCommand`: requires the table entry to be non-empty, as the write loop's truth test on the looked-up entry does; that every literal entry of `CommandMap` is non-empty is not proved for all entries at once.
- `Sources.SourceMap.Get`: `get` forwards any default argument to the dictionary's `get`; the model returns `None` for an unknown code, which is the only default the client passes (`get(id, None)`), and other defaults are not modelled.
- `Sources.SourceMap.AddAlias`: moves the state as the corrected `check_aliases` does; where the code as written raises NameError (see Findings, `Sources.WithAliasAsWritten`) the method does not model the exception.
- `Sources.SourceMap.AddAliases`: likewise follows the corrected `add_alias`; the code as written is `Sources.AddDefaultAliasesAsWritten`.
- `Sources.SourceMap.InitFromMap`: likewise follows the corrected `add_aliases`; the code as written is `Sources.InitFromAsWritten`, which raises NameError on a loaded table that names only one side of a built-in pair.
- `Sources.SourceMap.UpdateSource` and `Sources.SourceMap.LearnInputFrom`: likewise follow the corrected `check_aliases`; the code as written is `Sources.UpdatedAsWritten` and `Sources.LearnAsWritten`.
- `Sources.SourceMap.CheckAliases`: its contract does not restate the invariant `Valid`; `Sources.CheckAliasesValid` states it on the registry value, and every caller of the method states it.
- The two AST decoders differ: decoders.py stops at the end of a short line, while telnet.py raises. No lemma relates them.

## Findings

| source | as written | input that shows it | evidently intended | confidence | as-written member | corrected member |
|---|---|---|---|---|---|---|
| sources.py:110 | the second branch of `check_aliases` writes to an undefined global `inverseSourcesMap`, raising NameError | learning "50 apple" on a new SourceMap: update_source calls check_aliases("apple", "appletv") with apple known and appletv unknown | `self.inverse_map[b] = self.inverse_map[a]` | not executed | TestSources.LearnAppleNameError | Sources.Propagate |
| sources.py:102 | `add_alias` ends in the same `check_aliases`, so it raises NameError whenever the first name resolves and the second does not | `add_alias("TV", "television")` on a new SourceMap: "tv" selects 05FN and "television" nothing | "television" selects 05FN, as `self.inverse_map[b] = self.inverse_map[a]` gives | not executed | TestSources.AddTvAliasNameError | Sources.WithAlias |
| sources.py:60 | `init_from_map` ends in `add_aliases`, so loading a table that names one side of a built-in pair raises NameError | `init_from_map({"50": "APPLE"})` on a new SourceMap (as `read_from_file` calls it): "apple" now selects 50FN and "appletv" nothing | "appletv" selects 50FN as well | not executed | TestSources.LoadAppleNameError | Sources.InitFrom |
