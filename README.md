# A verified model of the saiga / swiftty terminal core

This project models the byte-to-action core of a terminal emulator in Dafny and proves properties of the
model. The core has two generations of the same design:

- **saiga_vte**: a VT escape-sequence parser in the style of Paul Williams' DEC ANSI parser.
  - `table.dfy`: its transition table.
  - `vte_params.dfy`: the bounded CSI/DCS parameter store of section 5.4.2 of ECMA-48.
  - `utf8.dfy`, `utf8_decode.dfy`: the UTF-8 lead-byte table and collector, and a reference decoder
    standing for the foreign validating decoder.
  - `c0.dfy`: the C0 control set used to cut text from control input.
  - `vte_model.dfy`: the parser as a value.
  - `vte.dfy`: the parser, its OSC handler and its intermediates as objects updated in place, proved
    against `vte_model.dfy`.
  - `vte_osc.dfy`, `vte_csi.dfy`: independent reference definitions of what an OSC string and a CSI
    parameter string dispatch, with proofs that the parser reaches them.
  - `vte_properties.dfy`, `vte_sequences.dfy`: laws of `advance` and the parser's unit-test inputs worked
    through the model.
  - `ansi_processor.dfy`: the `ansi::Processor` that turns executor calls into handler calls.
- **swiftty_vte**: a byte-at-a-time rewrite of that parser with its own OSC, intermediate and parameter
  handlers (`swiftty_osc.dfy`, `swiftty_intermediate.dfy`, `swiftty_param.dfy`).
  - `swiftty_model.dfy`: the parser as a value.
  - `swiftty_vte.dfy`: the parser object.
  - `swiftty_processor_model.dfy`, `swiftty_processor.dfy`: the processor that reassembles UTF-8 across
    chunks.
- **swiftty_backend**: a second processor with a four-byte UTF-8 buffer and 16-lane C0 scans.
  - `backend_processor_model.dfy`, `backend_processor.dfy`: the processor.
  - `backend_scan.dfy`: the scans, proved equal to a scalar search.
  - `backend_utf8.dfy`: its lead-byte tables.
  - `backend_action.dfy`: its recording executor.
- **saiga_backend**: the screen.
  - `grid_cell.dfy`, `grid_model.dfy`, `grid.dfy`: cells with templates, the grid with its resize and
    its row-major iterator.
  - `terminal.dfy`: the two-grid `Terminal` of `lib.rs`.
  - `terminal_handler.dfy`: the one-grid `Terminal` of `terminal.rs`.
- **saiga_input**: the keyboard tables.
  - `input_key.dfy`: keys and characters, the byte-to-key table, the key predicates and
    `effective_mods`.
  - `function_keys.dfy`: the PC-style function-key entries.
- **saiga_frontend**: `theme.dfy`, the index and component arithmetic of the xterm 256-colour palette.

Objects whose fields the program updates in place are classes. Their methods state the new state
through a value-level function, and the properties are proved about those functions. A `todo!()`,
an `expect` or an out-of-range index in the program is a panic. Where an input or a state that
callers can produce leads to a panic, the model reports it as a `panicked` result or as `None`. A few
low-level writes keep the index bound they write within as a precondition, because every caller in
the program checks it first; "## Left out" names them.

The executor and handler traits are recorded as lists of calls (`executor.dfy`). The foreign UTF-8
decoder and a character's display width are parameters or reference definitions.

The swiftty parser model (`SwifttyModel`, `SwifttyVte.Parser`) is the corrected program as far as the
OSC dispatch goes: `dispatch` there slices only the parameter entries in use. The dispatch as written
is `SwifttyOsc.DispatchAllEntries`, and the input on which the two differ is under "## Findings".

## Model

| member | source | states |
|---|---|---|
| Table.EntryActionOf | saiga_vte/src/lib.rs:346-359 | entering CsiEntry, DcsEntry or Escape clears, entering OscString starts the OSC handler, entering DcsPassthrough hooks, every other state has no entry action |
| Table.ExitActionOf | saiga_vte/src/lib.rs:361-371 | leaving DcsPassthrough unhooks, leaving OscString ends the OSC string, no other state has an exit action |
| Table.TransitionDefinedIff | saiga_vte/src/table.rs:102-263 | the Anywhere-then-state lookup has an entry exactly for bytes below 0xA0, in every state except OscString, which has one for every byte |
| Table.TargetIsParserStateOrCarriesAction | saiga_vte/src/table.rs:102-263 | every entry either targets a real parser state or is an in-place Anywhere entry carrying an action |
| Table.PutIsInPlace | saiga_vte/src/table.rs:250 | an `OscPut` entry never changes state: wherever the table puts into the OSC string, its target is Anywhere |
| Table.EscapeCancelSubFromAnywhere | saiga_vte/src/table.rs:107-110 | from every state ESC enters Escape, and CAN and SUB execute and return to Ground |
| Table.C1IntroducersFromAnywhere | saiga_vte/src/table.rs:107-114 | from every state 0x90, 0x9B, 0x9D, 0x98/0x9E/0x9F and 0x9C enter DcsEntry, CsiEntry, OscString, SosPmApcString and Ground |
| Table.GroundRow | saiga_vte/src/table.rs:119-124 | in Ground each C0 control is executed in place (CAN and SUB via Anywhere) and every byte 0x20-0x7F is printed |
| Table.CsiFinalByte | saiga_vte/src/table.rs:151-197 | a byte 0x40-0x7E in CsiEntry, CsiParam or CsiIntermediate dispatches and returns to Ground, in CsiIgnore it returns to Ground silently |
| Table.ColonInCsiAndDcs | saiga_vte/src/table.rs:157-213 | `:` is a `Param` byte in CsiEntry and CsiParam but sends DcsEntry and DcsParam to DcsIgnore |
| Table.OscStringRow | saiga_vte/src/table.rs:247-253 | in OscString BEL goes to Ground, C0 controls are ignored and bytes 0x20-0xFF outside the C1 introducers are `OscPut` |
| Table.DcsPassthroughRow | saiga_vte/src/table.rs:230-237 | in DcsPassthrough every 7-bit byte but DEL is `Put`, DEL is ignored and ST returns to Ground |
| Table.EscapeIntermediateRow | saiga_vte/src/table.rs:126-149 | intermediates 0x20-0x2F are collected in Escape and EscapeIntermediate, and a final byte dispatches to Ground |
| Table.PrivateMarkerRow | saiga_vte/src/table.rs:151-203 | a private marker 0x3C-0x3F right after CSI or DCS is collected and enters the parameter state |
| Table.DcsParamRow | saiga_vte/src/table.rs:199-218 | digits and `;` are `Param` bytes in DcsEntry and DcsParam |
| Table.DcsHeaderRow | saiga_vte/src/table.rs:199-228 | intermediates are collected in the DCS header, and a final byte 0x40-0x7E enters DcsPassthrough |
| C0.AllCharacterization | saiga_vte/src/ansi/c0.rs:70-73 | `ALL` holds 32 distinct bytes, exactly 0x00-0x1F without NAK (0x15), plus DEL |
| C0.C1NotInC0Set | saiga_vte/src/ansi/c0.rs:70-73 | no C1 control 0x80-0x9F is in `ALL` |
| C0.AllWithNakCharacterization | saiga_vte/src/ansi/c0.rs:70-73 | the corrected set `ALL` plus NAK holds 33 bytes, exactly 0x00-0x1F and DEL |
| C0.IsC0 | saiga_vte/src/ansi/c0.rs:97-109 | the linear search returns true iff the byte occurs in `ALL` |
| C0.BuildC0Set | saiga_vte/src/ansi/c0.rs:79-95 | the loop fills all 256 entries, entry `b` being true iff `b` is in `ALL` |
| C0.FirstIndexIn | saiga_vte/src/ansi/c0.rs:112-117 | the least index of the haystack whose byte is in the set, or None iff no byte is |
| C0.FirstIndexOfC0 | saiga_vte/src/ansi/c0.rs:112-117 | the least index of a C0-set byte, and None exactly when there is none |
| C0.FirstIndexInUnique | saiga_vte/src/ansi/c0.rs:112-117 | any index meeting the least-index specification equals the one returned |
| Executor.Prints | saiga_vte/src/executor.rs:5 | one `Print` call per character, in order |
| Executor.Puts | saiga_vte/src/executor.rs:12 | one `Put` call per byte, in order |
| Executor.PrintsAppend | saiga_vte/src/executor.rs:5 | printing `a + b` records the prints of `a`, then those of `b` |
| Utf8.ExpectedBytesCount | saiga_vte/src/utf8.rs:40-54 | the looked-up length, when there is one, is between 1 and 4 |
| Utf8.ExpectedBytesCountRanges | saiga_vte/src/utf8.rs:40-54 | the table by byte range: 1 up to 0x7F, None for 0x80-0xBF, 2 to 0xDF, 3 to 0xEF, 4 to 0xF7, None from 0xF8 |
| Utf8.ExpectedBytesCountOfWellFormed | saiga_vte/src/utf8.rs:40-54 | on any well-formed UTF-8 sequence (section 3 of RFC 3629) the table gives that sequence's length |
| Utf8.IntoCharOfEncoding | saiga_vte/src/utf8.rs:61-66 | `into_char` of the UTF-8 encoding of any scalar value is that scalar value |
| Utf8.IntoCharOfInvalid | saiga_vte/src/utf8.rs:61-66 | on non-empty bytes that are not valid UTF-8 the result is U+FFFD |
| Utf8.TruncatedIsInvalid | saiga_vte/src/utf8.rs:61-66 | a lead byte followed by fewer bytes than the table asks for is invalid UTF-8 |
| Utf8.Utf8Collector.constructor | saiga_vte/src/utf8.rs:8-13 | the default collector holds no bytes and expects none |
| Utf8.Utf8Collector.Push | saiga_vte/src/utf8.rs:17-20 | the collected bytes are the old ones plus the new byte, the remaining count is kept |
| Utf8.Utf8Collector.Reset | saiga_vte/src/utf8.rs:28-31 | no bytes collected and a remaining count of 0 |
| Utf8Decode.SequenceLength | saiga_vte/src/utf8.rs:57-59 | a well-formed first sequence is 1 to 4 bytes and lies within the input |
| Utf8Decode.DecodePrefix | saiga_vte/src/utf8.rs:57-59 | the decoded prefix length is at most the input length, and equals it only when decoding succeeded |
| Utf8Decode.FromUtf8 | saiga_vte/src/utf8.rs:57-59 | `Ok` with the scalar values of the whole input, or `Err` with `valid_up_to` strictly less than the input length |
| Utf8Decode.ValidPrefixIsValid | saiga_vte/src/lib.rs:244-253 | the bytes before `valid_up_to` are valid and decode to the characters decoded before the error |
| Utf8Decode.SequenceLengthDependsOnPrefix | saiga_vte/src/utf8.rs:57-59 | a well-formed first sequence is recognised the same whatever bytes follow it |
| Utf8Decode.DecodeAppend | saiga_vte/src/lib.rs:212-234 | decoding valid text followed by more bytes gives the text's characters and then the decoding of the rest |
| Utf8Decode.AsciiDecodes | saiga_vte/src/lib.rs:377 | every 7-bit byte is a one-byte sequence for the character of the same value |
| Utf8Decode.Encode | saiga_vte/src/utf8.rs:57-59 | the encoding of a scalar value is 1 to 4 bytes |
| Utf8Decode.EncodeDecodes | saiga_vte/src/utf8.rs:57-59 | the encoding of a scalar value is one well-formed sequence decoding back to it |
| Utf8Decode.EncodeAllRoundTrip | saiga_vte/src/utf8.rs:57-59 | decoding the encoding of any text gives the text back |
| VteParams.Param.ToSlice | saiga_vte/src/param.rs:50-52 | the slice has `len` sub-parameters |
| VteParams.Param.Push | saiga_vte/src/param.rs:33-40 | a full parameter is unchanged, otherwise the sub-parameter is appended |
| VteParams.Param.Clear | saiga_vte/src/param.rs:25-27 | the slice becomes empty while the array keeps its contents |
| VteParams.DefaultParam | saiga_vte/src/param.rs:8-12 | the default parameter has no sub-parameters |
| VteParams.ParamFrom | saiga_vte/src/param.rs:14-22 | `Param::from(x)` has exactly the sub-parameter `x` |
| VteParams.ParamIter.constructor | saiga_vte/src/param.rs:60-64 | a fresh iterator has all of `to_slice` still to come |
| VteParams.ParamIter.Next | saiga_vte/src/param.rs:69-79 | None once all `len` sub-parameters are yielded, otherwise the next one, in order |
| VteParams.ParamIter.SizeHint | saiga_vte/src/param.rs:81-85 | both bounds are the exact number still to come |
| VteParams.ToSlices | saiga_vte/src/param.rs:50-52 | one `to_slice` per parameter, in order |
| VteParams.Params.constructor | saiga_vte/src/param.rs:98-102 | `Params::default` has no parameters and empty slots |
| VteParams.Params.IsFull | saiga_vte/src/param.rs:118-120 | full exactly when 16 parameters are finished |
| VteParams.Params.Clear | saiga_vte/src/param.rs:105-112 | every slot and the count are emptied |
| VteParams.Params.NextParam | saiga_vte/src/param.rs:122-128 | the count grows by one unless 16 are finished, in which case nothing changes |
| VteParams.Params.PushSubparam | saiga_vte/src/param.rs:130-134 | the sub-parameter is pushed into slot `len` (unless that slot is full) and the finished parameters stay |
| VteParams.ParamsIter.constructor | saiga_vte/src/param.rs:156-160 | a fresh iterator has the first `len` slots still to come |
| VteParams.ParamsIter.Next | saiga_vte/src/param.rs:165-175 | None exactly when all `len` parameters are yielded, otherwise slot `index`, advancing by one |
| VteParams.ParamsIter.SizeHint | saiga_vte/src/param.rs:177-181 | both bounds are the exact number still to come |
| VteParams.CollectParams | saiga_vte/src/param.rs:136-182 | iterating `Params` and taking each `to_slice` yields exactly the finished parameters, in order |
| VteParams.CollectParam | saiga_vte/src/param.rs:46-96 | iterating a `Param` yields exactly its `to_slice`, in order |
| VteModel.CloseOscParam | saiga_vte/src/lib.rs:139-163 | closing the last OSC parameter keeps the raw bytes and at most 16 spans |
| VteModel.OscPutByte | saiga_vte/src/lib.rs:110-137 | the OSC state stays well formed: spans ordered within `raw`, at most 16 of them, `raw` at most 1024 bytes |
| VteModel.OscSlices | saiga_vte/src/lib.rs:165-179 | one slice per span in use, slice `i` being `raw[start..end]` of span `i` |
| VteModel.ParamByte | saiga_vte/src/lib.rs:399-420 | after a parameter byte the parameter list stays well formed |
| VteModel.FinishParams | saiga_vte/src/lib.rs:384-389 | closing the parameter list keeps it well formed |
| VteModel.CollectByte | saiga_vte/src/lib.rs:436-442 | at most two intermediates are ever kept |
| VteModel.ExecuteAction | saiga_vte/src/lib.rs:373-456 | an action never changes the state |
| VteModel.EntryAction | saiga_vte/src/lib.rs:346-359 | an entry action never changes the state |
| VteModel.ExitAction | saiga_vte/src/lib.rs:361-371 | an exit action never changes the state |
| VteModel.StateChange | saiga_vte/src/lib.rs:315-344 | the new state is the target, or the old state for an in-place Anywhere entry |
| VteModel.AdvanceSequence | saiga_vte/src/lib.rs:299-308 | one byte through the table leaves a well-formed parser |
| VteModel.Feed | saiga_vte/src/lib.rs:299-308 | feeding bytes one at a time leaves a well-formed parser |
| VteModel.FeedWhileInSequence | saiga_vte/src/lib.rs:205-208 | stops at the end or in Ground, and consumes nothing when started in Ground |
| VteModel.FeedWhileStops | saiga_vte/src/lib.rs:205-208 | in Ground, or with no byte left, the loop does not run |
| VteModel.TextLoop | saiga_vte/src/lib.rs:212-234 | the text loop leaves a well-formed parser |
| VteModel.Advance | saiga_vte/src/lib.rs:202-235 | `advance` leaves a well-formed parser |
| VteModel.CorrectedTextLoop | saiga_vte/src/lib.rs:212-234 | the text loop over the corrected C0 set leaves a well-formed parser |
| VteModel.CorrectedAdvance | saiga_vte/src/lib.rs:202-235 | `advance` over the corrected C0 set leaves a well-formed parser |
| VteOsc.OffsetStep | saiga_vte/src/lib.rs:113-133 | piece `i` lies at `Offset(i)..Offset(i+1)` of the concatenation |
| VteOsc.Pieces | saiga_vte/src/lib.rs:113 | splitting at `;` gives at least one piece |
| VteOsc.OscRaw | saiga_vte/src/lib.rs:135 | `raw` is the concatenated non-separator bytes, capped at 1024 |
| VteOsc.Count | saiga_vte/src/lib.rs:116-118 | at most 16 parameters, and never more than there are pieces |
| VteOsc.OscReference | saiga_vte/src/lib.rs:104-179 | the reference dispatch has one slice per counted parameter |
| VteOsc.ReferenceWithinBuffer | saiga_vte/src/lib.rs:104-179 | while the body fits the 1024-byte buffer, the parameters are the first 16 `;`-separated pieces |
| VteOsc.ReferenceOverflow | saiga_vte/src/lib.rs:135 | a body longer than 1024 bytes without `;` dispatches its first 1024 bytes |
| VteOsc.OscAfterSnoc | saiga_vte/src/lib.rs:110-137 | the OSC state after `s + [b]` is `put(b)` applied to the state after `s` |
| VteOsc.SeparatorInv | saiga_vte/src/lib.rs:113-133 | `put(';')` keeps the spans equal to the clamped piece offsets |
| VteOsc.ByteInv | saiga_vte/src/lib.rs:134-136 | `put` of a data byte keeps the spans equal to the clamped piece offsets |
| VteOsc.OscAfterInv | saiga_vte/src/lib.rs:105-137 | after `start` and the bytes of `s`, the spans are the clamped piece offsets of `s` |
| VteOsc.EndIsReference | saiga_vte/src/lib.rs:139-179 | `end` then `dispatch` produce exactly the reference parameters of the body |
| VteOsc.EndSpans | saiga_vte/src/lib.rs:139-163 | after `end` there are `Count(s)` spans, span `i` being the clamped offsets of piece `i` |
| VteOsc.OscIntroducer | saiga_vte/src/lib.rs:346-353 | `ESC ]` from Ground enters OscString with a started, empty OSC handler and no calls |
| VteOsc.OscPutStep | saiga_vte/src/table.rs:247-250 | in OscString a body byte only updates the OSC handler |
| VteOsc.FeedOscBody | saiga_vte/src/lib.rs:381 | feeding an OSC body stays in OscString, makes no calls and leaves the handler state after that body |
| VteOsc.InsideOsc | saiga_vte/src/lib.rs:205-231 | every prefix of `ESC ] body` leaves the parser outside Ground |
| VteOsc.GroundTerminatorStep | saiga_vte/src/lib.rs:361-371 | BEL or ST ends the OSC string and returns to Ground |
| VteOsc.EscapeTerminatorStep | saiga_vte/src/lib.rs:332-341 | ESC ends the OSC string and then clears on entering Escape |
| VteOsc.TerminatedBody | saiga_vte/src/lib.rs:139-179 | after `ESC ] body`, ending with BEL or ST dispatches the reference parameters, bell flag iff BEL |
| VteOsc.OscDispatchesReference | saiga_vte/src/lib.rs:202-235 | `advance` on `ESC ] body BEL/ST` from Ground dispatches exactly the reference parameters, then is in Ground |
| VteOsc.OscEscapeDispatchesReference | saiga_vte/src/lib.rs:202-235 | `ESC ] body ESC` dispatches the reference with no bell and leaves a cleared Escape state |
| VteOsc.OscStringTerminatorDispatches | saiga_vte/src/lib.rs:202-235 | `ESC ] body ESC \` dispatches the OSC, then `ESC \` as an escape dispatch, ending in Ground |
| VteOsc.InsideStringTerminator | saiga_vte/src/lib.rs:205-231 | every proper prefix of `ESC ] body ESC \` is outside Ground |
| VteOsc.TwoParams | saiga_vte/src/lib.rs:113-133 | `a;b` without further separators, within the buffer, yields parameters `[a, b]` |
| VteOsc.SeparatorsOnly | saiga_vte/src/lib.rs:116-118 | `k` separators yield the first 16 of `k + 1` empty parameters |
| VteOsc.ParseTitle | saiga_vte/src/lib.rs:568-584 | the `parse` test: `ESC ] 2;<title> ST` dispatches `["2", title]` |
| VteOsc.ParseEmpty | saiga_vte/src/lib.rs:586-598 | the `parse_empty` test: `ESC ] BEL` dispatches one empty parameter, bell-terminated |
| VteOsc.SeparatorsDispatch | saiga_vte/src/lib.rs:601-618 | `ESC ]` then `k` separators then ESC dispatches the first 16 of `k + 1` empty parameters |
| VteOsc.MaxParams | saiga_vte/src/lib.rs:601-618 | the `parse_max_params` test: 17 separators dispatch exactly 16 empty parameters |
| VteOsc.LongParamInChunks | saiga_vte/src/lib.rs:621-647 | a parameter fed over three `advance` calls dispatches `["52", "s" + n a's]` once |
| VteOsc.ExceedMaxBufferSize | saiga_vte/src/lib.rs:621-647 | the `exceed_max_buffer_size` test: one dispatch, `"52"` and a 117-byte second parameter |
| VteOsc.OverflowDispatch | saiga_vte/src/lib.rs:135 | an OSC body above 1024 bytes without `;` dispatches only its first 1024 bytes |
| VteOsc.BellTerminated | saiga_vte/src/lib.rs:649-662 | the `bell_terminated` test: `ESC ] 11;ff/00/ff BEL` dispatches `["11", "ff/00/ff"]` with the bell flag |
| Vte.Intermediates.Slice | saiga_vte/src/lib.rs:77-79 | `as_slice` has `index` bytes |
| Vte.Intermediates.constructor | saiga_vte/src/lib.rs:70-73 | a default buffer holds no intermediates |
| Vte.Intermediates.IsFull | saiga_vte/src/lib.rs:82-84 | full exactly when two intermediates are held |
| Vte.Intermediates.Push | saiga_vte/src/lib.rs:86-89 | when not full, the held bytes are the old ones plus the new byte |
| Vte.Intermediates.Clear | saiga_vte/src/lib.rs:92-94 | nothing is held any more |
| Vte.OscHandler.constructor | saiga_vte/src/lib.rs:97-102 | the default handler is the empty OSC state |
| Vte.OscHandler.Start | saiga_vte/src/lib.rs:105-108 | `start` empties `raw` and the parameter count |
| Vte.OscHandler.CloseParam | saiga_vte/src/lib.rs:143-160 | below 16 parameters, `end` records the span of the last parameter, on the value `CloseOscParam` |
| Vte.OscHandler.Put | saiga_vte/src/lib.rs:110-137 | the new handler state is `OscPutByte` of the old one |
| Vte.OscHandler.End | saiga_vte/src/lib.rs:139-163 | the handler closes its last parameter and makes exactly one `osc_dispatch` of its slices, bell flag iff the byte is BEL |
| Vte.OscHandler.Dispatch | saiga_vte/src/lib.rs:165-179 | the one call made is `osc_dispatch` of the slices in use, bell flag iff BEL |
| Vte.PrintAll | saiga_vte/src/lib.rs:240-242 | one `print` per character, in order |
| Vte.AdvanceUtf8 | saiga_vte/src/lib.rs:237-255 | valid text is printed character by character; otherwise the valid prefix is printed, then one U+FFFD |
| Vte.Parser.constructor | saiga_vte/src/lib.rs:198-200 | a new parser is the initial value: Ground, empty OSC, parameters and intermediates, not ignoring |
| Vte.Parser.ParamAction | saiga_vte/src/lib.rs:399-420 | the `Param` action updates parameters, current sub-parameter and ignore flag as `ParamByte` does |
| Vte.Parser.SeparatorAction | saiga_vte/src/lib.rs:406-410 | `;` pushes the current sub-parameter, closes the parameter and resets the sub-parameter to 0 |
| Vte.Parser.FinishParamsAction | saiga_vte/src/lib.rs:384-389 | `Hook` and `CsiDispatch` close the parameter list, or set ignore when it is full |
| Vte.Parser.CollectAction | saiga_vte/src/lib.rs:436-442 | collecting keeps at most two intermediates and sets ignore beyond that |
| Vte.Parser.ClearAction | saiga_vte/src/lib.rs:446-453 | `Clear` zeroes the sub-parameter, empties parameters and intermediates and resets ignore |
| Vte.Parser.ExecuteAction | saiga_vte/src/lib.rs:373-456 | each action changes the parser and records calls exactly as `VteModel.ExecuteAction` |
| Vte.Parser.OutputAction | saiga_vte/src/lib.rs:377-398 | actions that only call the executor change nothing in the parser |
| Vte.Parser.StateAction | saiga_vte/src/lib.rs:380-453 | the actions that update the parser agree with `VteModel.ExecuteAction` |
| Vte.Parser.OscAction | saiga_vte/src/lib.rs:380-382 | `OscStart`, `OscPut` and `OscEnd` agree with `VteModel.ExecuteAction` |
| Vte.Parser.ParamsAction | saiga_vte/src/lib.rs:383-453 | `Hook`, `Param`, `CsiDispatch`, `Collect` and `Clear` agree with `VteModel.ExecuteAction` |
| Vte.Parser.DispatchWithParams | saiga_vte/src/lib.rs:383-435 | `Hook` and `CsiDispatch` agree with `VteModel.ExecuteAction` |
| Vte.Parser.EntryAction | saiga_vte/src/lib.rs:346-359 | the entry action agrees with `VteModel.EntryAction` |
| Vte.Parser.ExitAction | saiga_vte/src/lib.rs:361-371 | the exit action agrees with `VteModel.ExitAction` |
| Vte.Parser.StateChange | saiga_vte/src/lib.rs:315-344 | `state_change` agrees with `VteModel.StateChange` |
| Vte.Parser.Transit | saiga_vte/src/lib.rs:331-342 | a change to a real state runs exit action, transition action, state update and entry action as `VteModel.StateChange` |
| Vte.Parser.AdvanceSequence | saiga_vte/src/lib.rs:299-308 | `advance_sequence` agrees with `VteModel.AdvanceSequence` |
| Vte.Parser.InEscapeSequence | saiga_vte/src/lib.rs:311-313 | true iff the state is not Ground |
| Vte.Parser.SequenceStep | saiga_vte/src/lib.rs:205-208 | one round of the first loop of `advance` is the first step of `FeedWhileInSequence` |
| Vte.Parser.FeedSequence | saiga_vte/src/lib.rs:205-208 | the loop reaches the parser, calls and index of `FeedWhileInSequence` |
| Vte.Parser.TextRound | saiga_vte/src/lib.rs:212-233 | one round of the text loop is the first step of `TextLoop` and shortens the remaining bytes |
| Vte.Parser.Advance | saiga_vte/src/lib.rs:202-235 | `advance` changes the parser and records calls exactly as `VteModel.Advance` |
| VteProperties.FeedAppend | saiga_vte/src/lib.rs:299-308 | feeding `a + b` byte by byte is feeding `a`, then `b` from where `a` left off, calls concatenated |
| VteProperties.UnmappedByteChangesNothing | saiga_vte/src/lib.rs:303-305 | a byte 0xA0-0xFF outside an OSC string has no table entry and changes nothing |
| VteProperties.FeedWhileIsFeed | saiga_vte/src/lib.rs:205-208 | the while-in-sequence loop equals byte-by-byte feeding of the bytes it consumed |
| VteProperties.GroundPrintsByte | saiga_vte/src/table.rs:121 | in Ground a printable 7-bit byte is printed and nothing else changes |
| VteProperties.GroundPrintsText | saiga_vte/src/table.rs:121 | in Ground, table-driven feeding of printable 7-bit text prints it and keeps the parser |
| VteProperties.PrintTextOfAscii | saiga_vte/src/lib.rs:237-243 | `advance_utf8` of 7-bit bytes prints each byte as its own character |
| VteProperties.RunIsPrintable | saiga_vte/src/ansi/c0.rs:70-73 | a 7-bit run without NAK and without C0-set bytes consists of printable bytes 0x20-0x7E |
| VteProperties.TextLoopIsFeed | saiga_vte/src/lib.rs:212-234 | on 7-bit input without NAK, the fast text loop from Ground equals byte-by-byte table feeding |
| VteProperties.AdvanceIsFeed | saiga_vte/src/lib.rs:202-235 | on 7-bit input without NAK, `advance` from any state equals feeding every byte through the table |
| VteProperties.FeedWhileIsPrefixFeed | saiga_vte/src/lib.rs:205-208 | the first loop of `advance` equals feeding the prefix it consumed |
| VteProperties.AdvanceInChunks | saiga_vte/src/lib.rs:202-235 | on 7-bit input without NAK, `advance(a + b)` equals `advance(a)` then `advance(b)` |
| VteProperties.AdvanceOneSequence | saiga_vte/src/lib.rs:212-234 | from Ground, one sequence starting with a C0-set byte and staying out of Ground until its last byte is handled as byte-by-byte feeding, whatever its bytes |
| VteProperties.AdvanceFromGround | saiga_vte/src/lib.rs:205-212 | from Ground, `advance` is the text loop alone |
| VteProperties.SequenceRunsToEnd | saiga_vte/src/lib.rs:222-233 | from Ground, a sequence that stays inside until its last byte is consumed by one inner loop |
| VteProperties.FirstIndexAtStart | saiga_vte/src/ansi/c0.rs:112-117 | a haystack starting with a C0-set byte has first index 0 |
| VteProperties.Cleared | saiga_vte/src/lib.rs:446-453 | the cleared parser keeps state and OSC handler and has empty parameters, sub-parameter 0, no ignore, no intermediates |
| VteProperties.EscapeCancels | saiga_vte/src/table.rs:110 | ESC outside OSC and DCS passthrough enters a cleared Escape state without calls |
| VteProperties.EscapeUnhooks | saiga_vte/src/lib.rs:361-365 | ESC in DCS passthrough unhooks, then enters a cleared Escape state |
| VteProperties.TableStep | saiga_vte/src/lib.rs:331-342 | a change to a state without entry action (from one without exit action) runs the transition action and sets the state |
| VteProperties.AnywhereStep | saiga_vte/src/lib.rs:324-330 | an in-place entry runs its action and keeps the state |
| VteProperties.CollectOne | saiga_vte/src/lib.rs:436-442 | with room, `Collect` appends the byte to the intermediates and calls nothing |
| VteProperties.InsideAppend | saiga_vte/src/lib.rs:205-231 | staying outside Ground through `a` and then through `b` is staying outside through `a + b` |
| VteProperties.InsideSuffix | saiga_vte/src/lib.rs:205-231 | staying outside Ground through `a + b` implies it for `b` after `a` |
| VteProperties.AdvanceInside | saiga_vte/src/lib.rs:212-234 | from Ground, a sequence started by a C0-set byte and kept outside Ground, plus one final byte, is `advance`d as it is fed |
| VteProperties.NakInTextIsPrinted | saiga_vte/src/lib.rs:212-218 | as written: `advance` prints NAK (0x15) as a character, while the table executes it |
| VteProperties.NakFed | saiga_vte/src/table.rs:119-120 | intended: fed through the table from Ground, NAK is executed |
| VteProperties.NakAdvanced | saiga_vte/src/lib.rs:212-218 | as written: `advance` from the initial parser prints NAK |
| VteProperties.NakTextLoop | saiga_vte/src/lib.rs:213-215 | NAK is not found as a sequence start, so the whole input goes to `advance_utf8` |
| VteProperties.CorrectedRunIsPrintable | saiga_vte/src/ansi/c0.rs:70-73 | a 7-bit run without bytes of the corrected C0 set consists of printable bytes 0x20-0x7E |
| VteProperties.CorrectedTextLoopIsFeed | saiga_vte/src/lib.rs:212-234 | on any 7-bit input, NAK included, the corrected text loop from Ground equals byte-by-byte table feeding |
| VteProperties.CorrectedAdvanceIsFeed | saiga_vte/src/lib.rs:202-235 | on any 7-bit input, NAK included, the corrected `advance` from any state equals feeding every byte through the table |
| VteProperties.CorrectedAdvanceInChunks | saiga_vte/src/lib.rs:202-235 | on any 7-bit input the corrected `advance(a + b)` equals the corrected `advance(a)` then `advance(b)` |
| VteProperties.CorrectedAgreesWithoutNak | saiga_vte/src/lib.rs:202-235 | on 7-bit input without NAK the corrected `advance` is the written one |
| VteProperties.CorrectedNak | saiga_vte/src/table.rs:119-120 | the corrected `advance` executes NAK from a new parser, which the written one does not |
| VteCsi.Split | saiga_vte/src/lib.rs:405-414 | splitting at a separator gives at least one piece |
| VteCsi.SplitPieces | saiga_vte/src/lib.rs:405-414 | no piece contains the separator, and every byte of a piece occurs in the input |
| VteCsi.DecimalSnoc | saiga_vte/src/lib.rs:415-418 | one more digit multiplies the decimal value so far by 10 and adds the digit |
| VteCsi.SatDecimals | saiga_vte/src/lib.rs:415-418 | one saturating decimal per digit string, in order |
| VteCsi.Subparams | saiga_vte/src/param.rs:33-40 | a parameter keeps at most 32 sub-parameters |
| VteCsi.AllSubparams | saiga_vte/src/lib.rs:405-414 | one sub-parameter list per `;`-field, in order |
| VteCsi.Reference | saiga_vte/src/lib.rs:399-435 | the reference parameter list of a CSI parameter string has at most 16 parameters |
| VteCsi.Fields | saiga_vte/src/lib.rs:406-410 | the `;`-fields of a parameter string, each a valid field |
| VteCsi.Subfields | saiga_vte/src/lib.rs:411-414 | the `:`-subfields of a field, each a digit string |
| VteCsi.ParamsAfterSnoc | saiga_vte/src/lib.rs:399-420 | the accumulator after `s + [b]` is the `Param` action on `b` after `s` |
| VteCsi.SplitSnoc | saiga_vte/src/lib.rs:405-414 | a separator opens a new empty piece, any other byte extends the last piece |
| VteCsi.SatStep | saiga_vte/src/lib.rs:416-417 | the saturating decimal of `g + [d]` is `sat_add(sat_mul(value(g), 10), d)` |
| VteCsi.AccStep | saiga_vte/src/lib.rs:399-420 | the `Param` action on one byte keeps the accumulator equal to the reference of the longer prefix |
| VteCsi.ParamsAfterInv | saiga_vte/src/lib.rs:399-420 | after any parameter string the accumulator agrees with the reference of that string |
| VteCsi.FinishIsReference | saiga_vte/src/lib.rs:421-427 | closing the parameters at the final byte yields exactly the reference list and ignore flag |
| VteCsi.ParamsMatchReference | saiga_vte/src/lib.rs:399-435 | from the cleared state, the `Param` actions and the final close give the reference list and ignore flag of the string |
| VteCsi.ParamByteStep | saiga_vte/src/table.rs:159-170 | in the CSI parameter states a parameter byte runs `Param` and moves to CsiParam without calls |
| VteCsi.FeedParamString | saiga_vte/src/table.rs:159-170 | feeding a parameter string in the CSI parameter states makes no calls and leaves the accumulator after that string |
| VteCsi.FinalByteStep | saiga_vte/src/lib.rs:421-435 | a final byte 0x40-0x7E closes the parameters, dispatches them with the intermediates and returns to Ground |
| VteCsi.CsiIntroducer | saiga_vte/src/lib.rs:346-350 | `ESC [` from Ground enters a cleared CsiEntry without calls |
| VteCsi.CsiDispatchesReference | saiga_vte/src/lib.rs:202-235 | `advance` of `ESC [ params final` from Ground makes exactly one `csi_dispatch` with the reference parameters and ignore flag, ending in Ground |
| VteCsi.SplitNone | saiga_vte/src/lib.rs:405-414 | a string without the separator is one piece |
| VteCsi.SplitJoin | saiga_vte/src/lib.rs:405-414 | splitting `a sep b` splits `a` and `b` separately |
| VteCsi.NumberSubparams | saiga_vte/src/lib.rs:415-418 | a digit string is one sub-parameter, its saturating value |
| VteCsi.SubparamsJoin | saiga_vte/src/lib.rs:411-414 | `a : b` has the sub-parameters of `a` followed by those of `b` |
| VteCsi.ReferenceJoin | saiga_vte/src/lib.rs:406-410 | `a ; b` has `a`'s list followed by `b`'s, cut to 16, and ignores iff `b` has 16 fields or more |
| VteCsi.ReferenceOfField | saiga_vte/src/lib.rs:421-427 | a single field gives one parameter and no ignore |
| VteCsi.EmptyParam | saiga_vte/src/lib.rs:409 | an empty field is the one sub-parameter 0 |
| VteCsi.TrailingSeparator | saiga_vte/src/lib.rs:714-727 | `4;` gives `[[4], [0]]` without ignore |
| VteCsi.LeadingSeparator | saiga_vte/src/lib.rs:729-742 | `;4` gives `[[0], [4]]` without ignore |
| VteCsi.ColourSubparams | saiga_vte/src/lib.rs:781-800 | `38:2:255:0:255` gives the sub-parameters 38, 2, 255, 0, 255 |
| VteCsi.Subparameters | saiga_vte/src/lib.rs:781-800 | `38:2:255:0:255;1` gives `[[38, 2, 255, 0, 255], [1]]` without ignore |
| VteCsi.DecimalFromAppend | saiga_vte/src/lib.rs:415-418 | the decimal value of `a + b` continues from the value of `a` |
| VteCsi.DecimalFromAtLeast | saiga_vte/src/lib.rs:415-418 | appending digits never decreases the value |
| VteCsi.LongParam | saiga_vte/src/lib.rs:744-759 | the 19-digit parameter 9223372036854775808 saturates to 65535 |
| VteCsi.Repeat | saiga_vte/src/lib.rs:673 | `n` copies of `x` |
| VteCsi.Ones | saiga_vte/src/lib.rs:673 | `"1;"` repeated `k` times has `2k` bytes |
| VteCsi.OnesParams | saiga_vte/src/lib.rs:668-689 | `k` times `1;` has `k + 1` fields: `k` ones and a final 0 |
| VteCsi.OnesReference | saiga_vte/src/lib.rs:668-712 | the reference is the first 16 of those, ignoring iff `k >= 16` |
| VteCsi.MaxParams | saiga_vte/src/lib.rs:668-689 | the `parse_max_params` input gives 16 parameters and no ignore |
| VteCsi.TooManyParams | saiga_vte/src/lib.rs:691-712 | the `parse_params_ignore_long_params` input gives 16 parameters and sets ignore |
| VteCsi.SplitOfSeparators | saiga_vte/src/lib.rs:405-414 | `k` separators split into `k + 1` empty pieces |
| VteCsi.SubparamsFillBuffer | saiga_vte/src/lib.rs:802-842 | `m` colons then 16 semicolons give a first parameter of `m + 1` zeros cut to 32, then 15 zeros, with ignore set |
| VteCsi.ColonsParam | saiga_vte/src/lib.rs:411-414 | `m` colons give `m + 1` zero sub-parameters, cut to 32 |
| VteCsi.SemisParams | saiga_vte/src/lib.rs:406-410 | 15 semicolons give 16 parameters of one 0 |
| VteCsi.FullSubparamBuffer | saiga_vte/src/param.rs:33-40 | 33 zeros cut to the buffer are 32 zeros |
| VteCsi.Csi | saiga_vte/src/lib.rs:674 | `ESC [ s f` starts with the introducer and ends with the final byte |
| VteCsi.TrailingSeparatorDispatch | saiga_vte/src/lib.rs:714-727 | the `parse_params_trailing_semicolon` test: `ESC [ 4 ; m` dispatches `[[4], [0]]` |
| VteCsi.LeadingSeparatorDispatch | saiga_vte/src/lib.rs:729-742 | the `parse_params_leading_semicolon` test: `ESC [ ; 4 m` dispatches `[[0], [4]]` |
| VteCsi.SubparametersDispatch | saiga_vte/src/lib.rs:781-800 | the `subparameters` test: one dispatch of `[[38, 2, 255, 0, 255], [1]]`, no intermediates, no ignore |
| VteCsi.LongParamDispatch | saiga_vte/src/lib.rs:744-759 | the `parse_long_param` test: one dispatch of `[[65535]]` |
| VteCsi.OnesDispatch | saiga_vte/src/lib.rs:668-712 | `ESC [` then `k` times `1;` then `p` dispatches the first 16 parameters, ignore iff `k >= 16` |
| VteCsi.SubparamsFillBufferDispatch | saiga_vte/src/lib.rs:802-842 | the `params_buffer_filled_with_subparam` test: 32 zeros then fifteen `[0]`, action `x`, ignore set |
| VteSequences.SameAfterFirst | saiga_vte/src/lib.rs:202-235 | two inputs whose first byte takes both parsers to the same state without a call make the same calls and end in the same state on the rest |
| VteSequences.CsiPrefixState | saiga_vte/src/table.rs:151-198 | after `ESC [` and a parameter string nothing has been called, and ESC leads to the state it leads to from the ground state |
| VteSequences.CsiInterrupted | saiga_vte/src/table.rs:106-116 | ESC inside a control sequence discards it: what follows behaves exactly as from the ground state |
| VteSequences.CsiMarker | saiga_vte/src/table.rs:151-160 | a private marker right after `ESC [` is collected as the one intermediate and starts the parameters |
| VteSequences.CsiMarkerFeed | saiga_vte/src/lib.rs:421-435 | `ESC [ m s f` makes exactly one `csi_dispatch` with the ECMA-48 parameters of `s` and the marker as its intermediate |
| VteSequences.CsiInterruptedByCsi | saiga_vte/src/lib.rs:761-779 | any unfinished control sequence interrupted by a whole one: only the second is dispatched |
| VteSequences.CsiReset | saiga_vte/src/lib.rs:761-779 | `ESC [ 3 ; 1 ESC [ ? 1049 h` dispatches only `?` with the parameter 1049 and final `h` |
| VteSequences.EscIntermediateDispatch | saiga_vte/src/table.rs:131-149 | `ESC i f` from the ground state makes one `esc_dispatch` with intermediate `i` and final `f` |
| VteSequences.CsiInterruptedByEsc | saiga_vte/src/table.rs:106-116 | any unfinished control sequence interrupted by `ESC i f`: only the escape sequence is dispatched |
| VteSequences.EscReset | saiga_vte/src/lib.rs:935-952 | `ESC [ 3 ; 1 ESC ( A` dispatches only the escape sequence with intermediate `(` and final `A`, not ignored |
| VteSequences.DcsIntroducer | saiga_vte/src/table.rs:131 | `ESC P` from the ground state enters the DCS entry state with cleared parameters and intermediates |
| VteSequences.FeedDcsParamString | saiga_vte/src/table.rs:199-219 | DCS parameter bytes accumulate the parameters as the CSI parameters do and call nothing |
| VteSequences.HookStep | saiga_vte/src/lib.rs:346-359 | a DCS final byte enters the passthrough, whose entry action calls `hook` with the closed parameters |
| VteSequences.DcsHookReference | saiga_vte/src/lib.rs:346-359 | a DCS header makes one `hook` with the ECMA-48 parameters, the collected intermediates, the reference `ignore` flag and the final byte, ending in the passthrough |
| VteSequences.FeedData | saiga_vte/src/table.rs:230-237 | DCS data bytes are handed one `put` each, in order, the parser staying in the passthrough |
| VteSequences.UnhookStep | saiga_vte/src/lib.rs:361-371 | the string terminator leaves the passthrough and its exit action calls `unhook` |
| VteSequences.DcsBody | saiga_vte/src/table.rs:199-238 | a DCS header and its data: the `hook` then one `put` per byte, still inside the sequence |
| VteSequences.DcsDispatchesReference | saiga_vte/src/lib.rs:346-371 | a whole DCS string makes exactly `hook`, one `put` per data byte and `unhook`, and returns to the ground state |
| VteSequences.DcsInterruptedByEsc | saiga_vte/src/lib.rs:361-371 | ESC inside a DCS string: `hook`, the `put`s, the exit action's `unhook`, then the escape sequence with only its own intermediate |
| VteSequences.UnhookThenEsc | saiga_vte/src/lib.rs:361-371 | `ESC i g` in the passthrough: `unhook`, then `esc_dispatch` with intermediate `i` alone |
| VteSequences.DcsAfterInterruptedCsi | saiga_vte/src/table.rs:106-116 | an unfinished control sequence before a whole DCS string: only the DCS string's calls are made |
| VteSequences.DcsParse | saiga_vte/src/lib.rs:891-914 | `ESC P 0;1 | 17/ab ST`: the hook with parameters 0 and 1 and final `|`, a put for each of `17/ab`, the unhook |
| VteSequences.DcsReset | saiga_vte/src/lib.rs:868-889 | `ESC [ 3 ; 1 ESC P 1 $ t x ST`: the hook with parameter 1 and intermediate `$`, not ignored, one put of `x`, the unhook |
| VteSequences.IntermediateResetOnExit | saiga_vte/src/lib.rs:916-929 | `ESC P = 1 s ZZZ ESC + \`: six calls, the last an escape sequence whose only intermediate is `+` |
| VteSequences.OnesHook | saiga_vte/src/lib.rs:399-420 | `ESC P` then `k` repetitions of `1;` then `p`: the hook keeps the first sixteen parameters and sets `ignore` once a seventeenth begins |
| VteSequences.DcsMaxParams | saiga_vte/src/lib.rs:848-866 | seventeen `1;` after `ESC P`: the hook has sixteen parameters of value 1 and `ignore` set |
| AnsiProcessor.Execute | saiga_vte/src/ansi/processor.rs:39-48 | a byte makes a handler call exactly when it is BEL through FF, and a line feed exactly for LF, VT and FF; every handled byte is a C0 control |
| AnsiProcessor.Handled | saiga_vte/src/ansi/processor.rs:39-48 | a run of executed bytes makes at most one handler call per byte, and exactly one when every byte is BEL through FF |
| AnsiProcessor.Forward | saiga_vte/src/ansi/processor.rs:34-84 | the executor calls are forwarded without panicking exactly when every one of them is an `execute` |
| AnsiProcessor.Advance | saiga_vte/src/ansi/processor.rs:17-21 | `advance` completes exactly when every call the parser makes on the input is an `execute`, leaving the parser as the parser's `advance` leaves it |
| AnsiProcessor.ExecuteStep | saiga_vte/src/ansi/processor.rs:17-21 | a C0 control other than ESC and NAK fed in the ground state is one `execute` and leaves the parser unchanged |
| AnsiProcessor.FeedControls | saiga_vte/src/ansi/processor.rs:39-48 | a run of such controls in the ground state leaves the parser unchanged and forwards exactly the handler calls of its bytes, in order |
| AnsiProcessor.AdvanceControls | saiga_vte/src/ansi/processor.rs:17-48 | `advance` on a run of such controls in the ground state completes and makes the handler calls of its bytes, in order |
| AnsiProcessor.PrintAction | saiga_vte/src/lib.rs:377 | the `Print` action calls `print` with the byte's character and nothing else |
| AnsiProcessor.PrintPanics | saiga_vte/src/ansi/processor.rs:35-37 | a printable byte in the ground state reaches `print`, which is `todo!()`, so `advance` panics |
| SwifttyParam.Params.Contents | swiftty_vte/src/param.rs:7-10 | the parameters in use are the first `len` entries of the array |
| SwifttyParam.Params.constructor | swiftty_vte/src/param.rs:6-10 | `Params::default` holds no parameter |
| SwifttyParam.Params.IsFull | swiftty_vte/src/param.rs:13-15 | full exactly when 32 parameters are in use |
| SwifttyParam.Params.Clear | swiftty_vte/src/param.rs:17-19 | no parameter is in use afterwards; the array keeps its values |
| SwifttyParam.Params.Push | swiftty_vte/src/param.rs:21-24 | on a full list the unguarded index `list[len]` panics and nothing changes; otherwise the parameter is appended and the earlier entries are kept |
| SwifttyIntermediate.Handler.AsSlice | swiftty_vte/src/intermediate.rs:14-16 | the slice is the first `index` bytes, at most two |
| SwifttyIntermediate.Handler.constructor | swiftty_vte/src/intermediate.rs:7-11 | `Handler::default` holds no intermediate |
| SwifttyIntermediate.Handler.IsFull | swiftty_vte/src/intermediate.rs:18-20 | full exactly when two bytes are held |
| SwifttyIntermediate.Handler.Push | swiftty_vte/src/intermediate.rs:22-29 | a byte is appended while fewer than two are held; when full nothing changes |
| SwifttyIntermediate.Handler.Clear | swiftty_vte/src/intermediate.rs:31-33 | no byte is held afterwards |
| SwifttyOsc.DefaultValid | swiftty_vte/src/osc.rs:9-14 | `Handler::default` has an empty buffer and no entry in use |
| SwifttyOsc.Started | swiftty_vte/src/osc.rs:17-20 | `start` empties the buffer and the entries in use, keeping the stored entries |
| SwifttyOsc.Closed | swiftty_vte/src/osc.rs:32-44 | closing a parameter appends the span from the previous end (or 0) to the buffer's end, unless sixteen are in use, when nothing changes |
| SwifttyOsc.PutByte | swiftty_vte/src/osc.rs:22-45 | a separator closes a parameter; any other byte is appended to the buffer and leaves the entries alone |
| SwifttyOsc.Slices | swiftty_vte/src/osc.rs:69-76 | one slice of the buffer per entry in use, each the entry's range |
| SwifttyOsc.Ended | swiftty_vte/src/osc.rs:47-67 | `end` closes the last parameter and dispatches the slices in use, bell-terminated exactly for BEL |
| SwifttyOsc.DispatchAllEntries | swiftty_vte/src/osc.rs:69-79 | as written, `dispatch` completes exactly when all sixteen stored ranges fit the buffer, and then dispatches the slices in use |
| SwifttyOsc.StaleEntryPanics | swiftty_vte/src/osc.rs:69-79 | `ESC ] a;b BEL` then `ESC ] BEL`: the as-written `dispatch` panics on a stale entry, though the one slice in use is empty |
| SwifttyOsc.PutAllSnoc | swiftty_vte/src/osc.rs:22-45 | feeding one more byte is one more `put` on the result |
| SwifttyOsc.PutAllInv | swiftty_vte/src/osc.rs:17-45 | after `start` and any input, the buffer holds the input without separators and the entries span its pieces |
| SwifttyOsc.EndIsReference | swiftty_vte/src/osc.rs:17-67 | `start`, every byte, then `end` dispatch the first sixteen `;`-separated pieces of the input, bell-terminated exactly for BEL |
| SwifttyOsc.ClosedSlices | swiftty_vte/src/osc.rs:69-76 | entries spanning the pieces slice out exactly the first sixteen pieces |
| SwifttyOsc.ClosedInv | swiftty_vte/src/osc.rs:47-64 | after `end` there is one entry per piece, at most sixteen, each spanning its piece |
| SwifttyOsc.Handler.Value | swiftty_vte/src/osc.rs:9-14 | the handler's fields read as an OSC state with sixteen entries |
| SwifttyOsc.Handler.constructor | swiftty_vte/src/osc.rs:9-14 | `Handler::default` is the default state |
| SwifttyOsc.Handler.Start | swiftty_vte/src/osc.rs:17-20 | `start` changes the handler as `Started` says |
| SwifttyOsc.Handler.CloseParam | swiftty_vte/src/osc.rs:32-44 | recording a parameter's entry changes the handler as `Closed` says |
| SwifttyOsc.Handler.Put | swiftty_vte/src/osc.rs:22-45 | `put` changes the handler as `PutByte` says |
| SwifttyOsc.Handler.End | swiftty_vte/src/osc.rs:47-67 | `end` changes the handler and makes the call as `Ended` says |
| SwifttyOsc.Handler.Dispatch | swiftty_vte/src/osc.rs:69-79 | the corrected `dispatch` slices only the entries in use, bell-terminated exactly for BEL |
| SwifttyOsc.Handler.DispatchAsWritten | swiftty_vte/src/osc.rs:69-79 | the as-written `dispatch` slices all sixteen entries, with the outcome of `DispatchAllEntries` |
| SwifttyModel.InitialValid | swiftty_vte/src/lib.rs:12-29 | `Parser::new` is in the ground state with an empty OSC buffer |
| SwifttyModel.ExecuteAction | swiftty_vte/src/lib.rs:91-174 | an action keeps the state; only `OscPut` can grow the OSC buffer, by at most one byte |
| SwifttyModel.EntryAction | swiftty_vte/src/lib.rs:64-77 | an entry action keeps the state and never grows the OSC buffer |
| SwifttyModel.ExitAction | swiftty_vte/src/lib.rs:79-89 | an exit action keeps the state and the OSC buffer |
| SwifttyModel.StateChange | swiftty_vte/src/lib.rs:40-62 | a change to Anywhere keeps the state, any other ends in its target; the OSC buffer grows by at most one byte |
| SwifttyModel.AdvanceIsChange | swiftty_vte/src/lib.rs:31-38 | `advance` is the state change of the byte's table entry, Anywhere row first |
| SwifttyModel.ChangeWithoutAction | swiftty_vte/src/lib.rs:53-61 | a change to a real state without an action is the exit action, then the entry action of the target |
| SwifttyModel.Advance | swiftty_vte/src/lib.rs:31-38 | one byte with a table entry keeps the parser well formed and grows the OSC buffer by at most one |
| SwifttyModel.Feed | swiftty_vte/src/lib.rs:31-38 | feeding grows the OSC buffer by at most one byte per byte, or panics where a byte has no entry |
| SwifttyModel.KnownIff | swiftty_vte/src/lib.rs:32-35 | a byte has a table entry exactly when it is below 0xA0 or the parser is inside an OSC string |
| SwifttyModel.NoPanicBelowA0 | swiftty_vte/src/lib.rs:35 | bytes all below 0xA0 never reach the `expect` panic |
| SwifttyModel.PanicsOutsideOsc | swiftty_vte/src/lib.rs:35 | a byte from 0xA0 up outside an OSC string reaches the `expect` panic |
| SwifttyModel.InitialRelated | swiftty_vte/src/lib.rs:27-29 | the new swiftty parser and the new saiga parser are related |
| SwifttyModel.ClosedAgrees | swiftty_vte/src/osc.rs:32-64 | closing an OSC parameter gives the same entries and slices on the swiftty and saiga handlers |
| SwifttyModel.ExecuteAgrees | swiftty_vte/src/lib.rs:91-174 | while saiga's OSC buffer has room, one action keeps the parsers related and makes the same calls |
| SwifttyModel.EntryAgrees | swiftty_vte/src/lib.rs:64-77 | the entry actions keep the parsers related and make the same calls |
| SwifttyModel.ExitAgrees | swiftty_vte/src/lib.rs:79-89 | the exit actions keep the parsers related and make the same calls |
| SwifttyModel.AdvanceAgrees | swiftty_vte/src/lib.rs:31-38 | one byte with a table entry keeps the parsers related and makes the calls of saiga's `advance_sequence` |
| SwifttyModel.TransitAgrees | swiftty_vte/src/lib.rs:40-62 | a state change to a real state keeps the parsers related and makes the same calls |
| SwifttyModel.FeedAgrees | swiftty_vte/src/lib.rs:31-38 | where swiftty does not panic and the OSC buffer stays within 1024 bytes, it makes exactly saiga's calls |
| SwifttyModel.FromInitial | swiftty_vte/src/lib.rs:31-38 | from new parsers, up to 1024 bytes below 0xA0 never panic and make exactly saiga's calls |
| SwifttyModel.FeedAppend | swiftty_vte/src/lib.rs:31-38 | feeding `a` then `b` is feeding `a + b`, panics and calls included |
| SwifttyModel.Opened | swiftty_vte/src/lib.rs:64-71 | after `ESC ]` the parser is in the OSC string state with `start` run |
| SwifttyModel.FeedStep | swiftty_vte/src/lib.rs:31-38 | the calls of one byte come before the calls of the rest |
| SwifttyModel.GroundEscStep | swiftty_vte/src/lib.rs:64-68 | ESC from the ground state enters Escape, clears the accumulators and calls nothing |
| SwifttyModel.OscBracketStep | swiftty_vte/src/lib.rs:69-71 | `]` after ESC enters the OSC string state and runs `start`, calling nothing |
| SwifttyModel.OscIntroducer | swiftty_vte/src/lib.rs:64-71 | `ESC ]` from the ground state calls nothing and leaves the opened parser |
| SwifttyModel.SingleFeed | swiftty_vte/src/lib.rs:31-38 | feeding one byte with an entry is its `advance` |
| SwifttyModel.FeedOscBody | swiftty_vte/src/lib.rs:99 | every byte of an OSC string's body is `put` into the handler, with no call |
| SwifttyModel.GroundTerminatorStep | swiftty_vte/src/lib.rs:79-86 | BEL or ST ends the string with `end` and returns to the ground state |
| SwifttyModel.EscapeTerminatorStep | swiftty_vte/src/lib.rs:79-86 | ESC ends the string with `end` and enters Escape |
| SwifttyModel.TerminatorStep | swiftty_vte/src/lib.rs:79-86 | the last byte of the string makes exactly one call, the dispatch of `end` |
| SwifttyModel.OscOpened | swiftty_vte/src/lib.rs:64-100 | after `ESC ] s` the parser is in the string with every byte of `s` put |
| SwifttyModel.OscDispatchesPieces | swiftty_vte/src/lib.rs:79-100 | `ESC ] s t` makes exactly one `osc_dispatch` of the first sixteen pieces of `s`, each whole, bell-terminated exactly for BEL |
| SwifttyModel.WholeParameter | swiftty_vte/src/osc.rs:22-28 | a parameter of any length is dispatched whole |
| SwifttyModel.TwoPieces | swiftty_vte/src/osc.rs:22-45 | two separator-free parameters joined by `;` are two pieces |
| SwifttyModel.OscParse | swiftty_vte/src/lib.rs:258-275 | test `parse`: the parameters `2` and the title |
| SwifttyModel.OscParseEmpty | swiftty_vte/src/lib.rs:278-291 | test `parse_empty`: `ESC ] BEL` dispatches one empty parameter, bell-terminated |
| SwifttyModel.OscSeparators | swiftty_vte/src/osc.rs:32-44 | `k` separators ended by ESC dispatch the first sixteen of `k + 1` empty parameters |
| SwifttyModel.OscMaxParams | swiftty_vte/src/lib.rs:294-313 | test `parse_max_params`: 33 separators dispatch sixteen empty parameters |
| SwifttyModel.LongSecondParameter | swiftty_vte/src/lib.rs:316-348 | `ESC ] 52 ; s`, `n` bytes `a`, BEL: the second parameter keeps all `n + 1` bytes |
| SwifttyModel.OscExceedMaxBufferSize | swiftty_vte/src/lib.rs:316-348 | test `exceed_max_buffer_size`: a second parameter of 117 bytes, bell-terminated |
| SwifttyModel.OscBellTerminated | swiftty_vte/src/lib.rs:351-365 | test `bell_terminated`: `ESC ] 11;ff/00/ff BEL` |
| SwifttyModel.LikeSaigaAdvance | swiftty_vte/src/lib.rs:31-38 | 7-bit input without NAK from a new parser makes the calls of saiga's `advance` |
| SwifttyModel.EscFromGround | swiftty_vte/src/lib.rs:64-68 | ESC from the ground state calls nothing |
| SwifttyModel.CsiTrailingSemicolon | swiftty_vte/src/lib.rs:422-436 | test `parse_params_trailing_semicolon`: parameters 4 and 0 |
| SwifttyModel.CsiLeadingSemicolon | swiftty_vte/src/lib.rs:439-453 | test `parse_params_leading_semicolon`: parameters 0 and 4 |
| SwifttyModel.CsiLongParam | swiftty_vte/src/lib.rs:456-472 | test `parse_long_param`: the parameter saturates to 65535 |
| SwifttyModel.CsiSubparameters | swiftty_vte/src/lib.rs:497-517 | test `subparameters`: `38:2:255:0:255` and `1`, back in the ground state |
| SwifttyModel.CsiReset | swiftty_vte/src/lib.rs:475-494 | test `reset` (CSI): only `ESC [ ? 1049 h` is dispatched |
| SwifttyModel.CsiParamsBufferFilled | swiftty_vte/src/lib.rs:520-561 | test `params_buffer_filled_with_subparam`: 32 zero sub-parameters, fifteen zeros, `ignore` set |
| SwifttyModel.EscReset | swiftty_vte/src/lib.rs:663-681 | test `reset` (ESC): only `ESC ( A` is dispatched |
| SwifttyModel.DcsParse | swiftty_vte/src/lib.rs:615-639 | test `parse` (DCS): the hook with 0 and 1, five puts, the unhook |
| SwifttyModel.DcsReset | swiftty_vte/src/lib.rs:590-612 | test `reset` (DCS): the hook with 1 and `$`, one put, the unhook |
| SwifttyModel.IntermediateResetOnExit | swiftty_vte/src/lib.rs:642-656 | test `intermediate_reset_on_exit`: six calls, the escape with only `+` |
| SwifttyVte.Parser.Value | swiftty_vte/src/lib.rs:12-24 | the parser's objects read as a well-formed parser value |
| SwifttyVte.Parser.constructor | swiftty_vte/src/lib.rs:27-29 | `Parser::new` is the initial parser value on fresh objects |
| SwifttyVte.Parser.ParamAction | swiftty_vte/src/lib.rs:117-138 | the `Param` action changes the parameters, the sub-parameter and `ignoring` as a parameter byte does, keeping the state |
| SwifttyVte.Parser.FinishParamsAction | swiftty_vte/src/lib.rs:101-107 | the closing step of `Hook` and `CsiDispatch` pushes the last sub-parameter and parameter, or sets `ignoring` when full |
| SwifttyVte.Parser.CollectAction | swiftty_vte/src/lib.rs:154-160 | `Collect` appends the byte while there is room and otherwise sets `ignoring` |
| SwifttyVte.Parser.ClearAction | swiftty_vte/src/lib.rs:164-171 | `Clear` empties the sub-parameter, the parameters and the intermediates and resets `ignoring` |
| SwifttyVte.Parser.ExecuteAction | swiftty_vte/src/lib.rs:91-174 | `execute_action` changes the parser and makes the calls of the action's value model |
| SwifttyVte.Parser.OutputAction | swiftty_vte/src/lib.rs:95-97 | the actions that only call the executor change nothing and make the model's calls |
| SwifttyVte.Parser.OscAction | swiftty_vte/src/lib.rs:98-100 | the OSC actions change the OSC handler and make the calls of the model |
| SwifttyVte.Parser.ParamsAction | swiftty_vte/src/lib.rs:101-171 | the parameter, intermediate and clear actions agree with the model |
| SwifttyVte.Parser.DispatchWithParams | swiftty_vte/src/lib.rs:101-115 | `Hook` and `CsiDispatch` close the parameters, then hand them over, as the model says |
| SwifttyVte.Parser.EntryAction | swiftty_vte/src/lib.rs:64-77 | `execute_state_entry_action` agrees with the model |
| SwifttyVte.Parser.ExitAction | swiftty_vte/src/lib.rs:79-89 | `execute_state_exit_action` agrees with the model |
| SwifttyVte.Parser.StateChange | swiftty_vte/src/lib.rs:40-62 | `state_change` agrees with the model |
| SwifttyVte.Parser.Transit | swiftty_vte/src/lib.rs:53-61 | a change to a real state runs the exit action, the action, the assignment and the entry action, as the model says |
| SwifttyVte.Parser.Advance | swiftty_vte/src/lib.rs:31-38 | `advance` panics exactly for a byte with no table entry, leaving the parser alone; otherwise it changes the parser and makes the calls of the model's `Advance` |
| SwifttyVte.Parser.InEscapeSequence | saiga_vte/src/lib.rs:311-313 | inside an escape sequence exactly when the state is not the ground state |
| SwifttyProcessorModel.Collect | swiftty_vte/src/ansi/processor.rs:83-93 | a collecting round keeps at most four bytes buffered and consumes between one byte and all of them |
| SwifttyProcessorModel.Utf8Step | swiftty_vte/src/ansi/processor.rs:66-95 | one round of `process_utf8` keeps the collector bounded and consumes at least one byte |
| SwifttyProcessorModel.ProcessUtf8 | swiftty_vte/src/ansi/processor.rs:62-97 | `process_utf8` leaves a bounded collector |
| SwifttyProcessorModel.InSequence | swiftty_vte/src/ansi/processor.rs:25-28 | the byte loop leaves a well-formed parser and stops early only once the parser is outside a sequence |
| SwifttyProcessorModel.Flushed | swiftty_vte/src/ansi/processor.rs:40-43 | after the text, a pending character prints U+FFFD and the collector is emptied; with none pending nothing happens |
| SwifttyProcessorModel.TextLoop | swiftty_vte/src/ansi/processor.rs:32-59 | the outer loop leaves a bounded collector and a well-formed parser |
| SwifttyProcessorModel.Process | swiftty_vte/src/ansi/processor.rs:17-60 | `process` leaves a bounded collector and a well-formed parser, where it does not panic |
| SwifttyProcessorModel.Want | swiftty_vte/src/ansi/processor.rs:66-81 | a round wants nothing only with no character pending, and never more than four bytes in all |
| SwifttyProcessorModel.StepByWant | swiftty_vte/src/ansi/processor.rs:66-93 | a round either prints an ASCII byte directly or collects what it wants |
| SwifttyProcessorModel.Utf8Chunks | swiftty_vte/src/ansi/processor.rs:62-97 | text processed in two calls prints what it prints in one and leaves the same collector |
| SwifttyProcessorModel.AsciiPrintedDirectly | swiftty_vte/src/ansi/processor.rs:72-76 | with nothing pending, an ASCII byte is printed as it is |
| SwifttyProcessorModel.UnclassifiedByte | swiftty_vte/src/ansi/processor.rs:79-80 | with nothing pending, a byte that starts no sequence is a round of one byte that prints U+FFFD |
| SwifttyProcessorModel.OneCharacter | swiftty_vte/src/ansi/processor.rs:62-103 | the encoding of one character alone prints that character and leaves nothing pending |
| SwifttyProcessorModel.FirstRound | swiftty_vte/src/ansi/processor.rs:66-95 | the first round on an encoding followed by anything takes exactly that encoding |
| SwifttyProcessorModel.DecodesValidText | swiftty_vte/src/ansi/processor.rs:62-103 | valid UTF-8 prints exactly the characters it encodes |
| SwifttyProcessorModel.SplitCharacter | swiftty_vte/src/ansi/processor.rs:62-103 | a character cut after `k` bytes: the first part prints nothing and leaves it pending, the second prints it once |
| SwifttyProcessorModel.PartialRound | swiftty_vte/src/ansi/processor.rs:83-90 | a round on a proper prefix of an encoding collects it and waits for the rest |
| SwifttyProcessorModel.ZheAndHan | swiftty_vte/src/ansi/processor.rs:192-194 | D0 then 96 print 'Ж' once; E6 BC A2 prints '漢' |
| SwifttyProcessorModel.ProcessText | swiftty_vte/src/ansi/processor.rs:33-35 | outside a sequence, text without C0 bytes goes to `process_utf8` alone |
| SwifttyProcessorModel.TextInChunks | swiftty_vte/src/ansi/processor.rs:17-60 | text split across two `process` calls prints what one call prints; a character cut by the boundary is printed once |
| SwifttyProcessorModel.InSequenceRuns | swiftty_vte/src/ansi/processor.rs:49-56 | the byte loop runs through a run that stays inside a sequence and stops right after it |
| SwifttyProcessorModel.TextLoopRound | swiftty_vte/src/ansi/processor.rs:38-58 | one outer round: the text, a U+FFFD for a character left unfinished, then the sequence until the parser is outside |
| SwifttyProcessorModel.ProcessFromOutside | swiftty_vte/src/ansi/processor.rs:23-30 | outside any sequence, `process` is its outer loop |
| SwifttyProcessorModel.LastChunk | swiftty_vte/src/ansi/processor.rs:38-58 | a chunk ending with a sequence: its text, what the text leaves unfinished, then the sequence |
| SwifttyProcessorModel.InSequenceAdvances | swiftty_vte/src/ansi/processor.rs:25-28 | the invariant of the byte loop, carried over one more byte |
| SwifttyProcessorModel.InSequenceStops | swiftty_vte/src/ansi/processor.rs:26 | the byte loop panics on a byte inside a sequence that has no table entry |
| SwifttyProcessorModel.InSequenceDone | swiftty_vte/src/ansi/processor.rs:25 | the byte loop stops once the parser is outside or the bytes run out |
| SwifttyProcessorModel.ProcessInside | swiftty_vte/src/ansi/processor.rs:25-28 | inside a sequence, `process` hands the next byte to the parser and goes on with the rest |
| SwifttyProcessorModel.ProcessPanics | swiftty_vte/src/ansi/processor.rs:25-28 | inside any sequence but an OSC string, a byte from 0xA0 up makes `process` panic |
| SwifttyProcessorModel.TextLoopText | swiftty_vte/src/ansi/processor.rs:33-35 | on text without a C0 byte, the outer loop hands all of it to `process_utf8` |
| SwifttyProcessorModel.C0IsKnown | swiftty_vte/src/ansi/processor.rs:49-50 | a C0 byte has a table entry in every state |
| SwifttyProcessorModel.TextLoopAtC0 | swiftty_vte/src/ansi/processor.rs:38-58 | at a C0 byte: the text before it, a U+FFFD for what it leaves unfinished, the C0 byte, then `process` from there |
| SwifttyProcessorModel.OuterRound | swiftty_vte/src/ansi/processor.rs:32-59 | the invariant of the outer loop carried over one round |
| SwifttyProcessorModel.OuterRoundPanics | swiftty_vte/src/ansi/processor.rs:49-56 | a round whose sequence reaches a byte without a table entry panics |
| SwifttyProcessorModel.InSequenceNoPanic | swiftty_vte/src/ansi/processor.rs:25-28 | bytes below 0xA0 never make the byte loop panic |
| SwifttyProcessorModel.TextLoopNoPanic | swiftty_vte/src/ansi/processor.rs:32-59 | bytes below 0xA0 never make the outer loop panic |
| SwifttyProcessorModel.ProcessNoPanic | swiftty_vte/src/ansi/processor.rs:17-60 | a chunk of bytes below 0xA0 never makes `process` panic, whatever the collector and parser hold |
| SwifttyProcessorModel.AsciiText | swiftty_vte/src/ansi/processor.rs:72-76 | ASCII text with nothing pending prints byte by byte |
| SwifttyProcessorModel.CsiStaysInside | swiftty_vte/src/ansi/processor.rs:49-56 | every proper prefix of a control sequence from a new parser is inside the sequence |
| SwifttyProcessorModel.BelStep | swiftty_vte/src/ansi/processor.rs:49-56 | BEL from the ground state is executed in place |
| SwifttyProcessorModel.MixedFirstChunk | swiftty_vte/src/ansi/processor.rs:187-191 | the first chunk of `process_mixed`: five prints, BEL executed, one SGR dispatch |
| SwifttyProcessorModel.MixedLaterChunks | swiftty_vte/src/ansi/processor.rs:192-195 | the later chunks: 'Ж' once, '漢', then U+FFFD before ESC enters Escape |
| SwifttyProcessorModel.InterruptedHan | swiftty_vte/src/ansi/processor.rs:195 | the last chunk, an unfinished '漢' then ESC, prints U+FFFD |
| SwifttyProcessorModel.ProcessMixed | swiftty_vte/src/ansi/processor.rs:181-217 | test `process_mixed`: exactly the ten calls the test expects |
| SwifttyProcessor.Processor.Value | swiftty_vte/src/ansi/processor.rs:7-10 | the collector's array and counts read as a bounded pending value |
| SwifttyProcessor.Processor.constructor | swiftty_vte/src/ansi/processor.rs:13-15 | `Processor::new` has nothing pending |
| SwifttyProcessor.Processor.ConsumeUtf8 | swiftty_vte/src/ansi/processor.rs:99-103 | `consume_utf8` prints the collected character and empties the collector |
| SwifttyProcessor.Processor.ProcessUtf8 | swiftty_vte/src/ansi/processor.rs:62-97 | `process_utf8` changes the collector and prints as `ProcessUtf8` says |
| SwifttyProcessor.Processor.Utf8Round | swiftty_vte/src/ansi/processor.rs:66-95 | one round changes the collector, prints and consumes as `Utf8Step` says |
| SwifttyProcessor.Processor.Process | swiftty_vte/src/ansi/processor.rs:17-60 | `process` panics exactly where `Process` is None; otherwise it changes the collector and the parser and makes the calls `Process` says |
| SwifttyProcessor.Processor.Round | swiftty_vte/src/ansi/processor.rs:33-58 | one round of the outer loop consumes at least one byte and agrees with `TextLoop`, panicking only where it is None |
| SwifttyProcessor.Processor.Control | swiftty_vte/src/ansi/processor.rs:33-38 | a round stopping at the C0 byte at `start` consumes at least one byte and agrees with the outer loop of `TextLoop`, panicking only where it is None |
| SwifttyProcessor.Processor.Text | swiftty_vte/src/ansi/processor.rs:38-43 | the text before a C0 byte: `process_utf8`, then a pending character printed as U+FFFD, leaving the collector empty |
| SwifttyProcessor.Sequence | swiftty_vte/src/ansi/processor.rs:45-56 | the C0 byte and the bytes after it go to the parser while it is inside a sequence, as `InSequence` says |
| SwifttyProcessor.FeedSequence | swiftty_vte/src/ansi/processor.rs:25-28 | the byte loop panics exactly where `InSequence` is None and otherwise agrees with it |
| BackendUtf8.ExpectedBytesCount | swiftty_backend/src/utf8.rs:3-21 | a byte never has length 0: a 0 entry of the table is None |
| BackendUtf8.AgreesWithVte | swiftty_backend/src/utf8.rs:3-21 | the backend's `>>3` table gives every byte the length saiga_vte's table gives it |
| BackendUtf8.FindUtf8Start | swiftty_backend/src/utf.rs:1-5 | `find_utf8_start` finds nothing, whatever the bytes |
| BackendUtf8.Utf8BytesCount.Value | swiftty_backend/src/utf.rs:7-13 | the counts stand for 1 to 4 bytes |
| BackendUtf8.ExactLeadBytes | swiftty_backend/src/utf.rs:15-25 | every well-formed UTF-8 sequence has the length the exact table gives its lead byte |
| BackendUtf8.ExactLeadBytesComplete | swiftty_backend/src/utf.rs:15-25 | every byte the exact table accepts starts a well-formed sequence of the length it gives |
| BackendUtf8.RejectedLeadBytes | swiftty_backend/src/utf.rs:15-25 | a byte the exact table rejects is a continuation byte, 0xC0, 0xC1 or from 0xF5 up, and starts no well-formed sequence |
| BackendUtf8.LooseTableExtendsExact | swiftty_backend/src/utf8.rs:3-21 | the `>>3` table agrees with the exact one wherever that gives a length, and differs from it exactly at 0xC0, 0xC1 and 0xF5-0xF7 |
| BackendScan.C0ArrayCharacterization | swiftty_backend/src/processor.rs:114-126 | `C0_ARRAY` is exactly ESC, NUL and BEL through SI |
| BackendScan.C0ArrayWithinC0Set | swiftty_backend/src/processor.rs:114-126 | every control of `C0_ARRAY` is in the parser's C0 set, so the processor never stops before the parser's scan would |
| BackendScan.FirstIndexScalar | swiftty_backend/src/processor.rs:132-140 | the scalar scan gives the first index whose byte is one of the needles |
| BackendScan.ReduceMin | swiftty_backend/src/processor.rs:164-166 | `reduce_min` gives a lane value no greater than any lane |
| BackendScan.SplatIndex | swiftty_backend/src/processor.rs:161-169 | one splat against a sixteen-byte block gives its first matching lane |
| BackendScan.BlockIndex | swiftty_backend/src/processor.rs:156-171 | the least offer over the splats is the first lane of the block that holds a needle, offset by `pos`, or none when no lane does |
| BackendScan.FirstIndexLanes | swiftty_backend/src/processor.rs:142-182 | the lane scan gives exactly the scalar scan's first index of a needle |
| BackendScan.ProcessorFirstIndexScalar | swiftty_backend/src/processor.rs:132-140 | the processor's scalar scan finds the first control of `C0_ARRAY` |
| BackendScan.ProcessorFirstIndex | swiftty_backend/src/processor.rs:142-182 | the processor's lane scan finds the first control of `C0_ARRAY` |
| BackendScan.AnsiFirstIndexScalar | swiftty_backend/src/ansi.rs:13-21 | the scalar scan over the C0 set is the parser's `first_index_of_c0` |
| BackendScan.AnsiFirstIndex | swiftty_backend/src/ansi.rs:23-63 | the lane scan over the C0 set is the parser's `first_index_of_c0` |
| BackendProcessorModel.WantBytes | swiftty_backend/src/processor.rs:73-81 | a round wants what a pending sequence still expects, else the lead byte's length, else 1; never more than four bytes in all |
| BackendProcessorModel.Round | swiftty_backend/src/processor.rs:73-96 | a round keeps the buffer bounded and consumes between one byte and all of them |
| BackendProcessorModel.ProcessUtf8 | swiftty_backend/src/processor.rs:69-98 | `process_utf8` leaves a bounded buffer that is never ready to consume |
| BackendProcessorModel.AsciiIntoChar | swiftty_backend/src/utf8.rs:23-28 | an ASCII byte alone turns into itself |
| BackendProcessorModel.RoundAgrees | swiftty_backend/src/processor.rs:73-96 | a round agrees with a round of swiftty_vte's `process_utf8` |
| BackendProcessorModel.ProcessUtf8Agrees | swiftty_backend/src/processor.rs:69-98 | `process_utf8` prints what swiftty_vte's prints and leaves the same bytes pending |
| BackendProcessorModel.Groups | swiftty_backend/src/processor.rs:85-94 | every byte group handed to `consume_utf8` holds one to four bytes |
| BackendProcessorModel.CopiedOnce | swiftty_backend/src/processor.rs:85-94 | every input byte is copied into the buffer exactly once: the printed groups, then what is pending, are the earlier pending bytes and the input; one character per group |
| BackendProcessorModel.TextLoop | swiftty_backend/src/processor.rs:40-66 | the outer loop keeps the buffer bounded and the parser well formed |
| BackendProcessorModel.Process | swiftty_backend/src/processor.rs:25-67 | `process` keeps the buffer bounded and the parser well formed, where it does not panic |
| BackendProcessorModel.TextLoopText | swiftty_backend/src/processor.rs:41-44 | with no control of `C0_ARRAY` left, the text goes to `process_utf8` and the call returns |
| BackendProcessorModel.ControlIsKnown | swiftty_backend/src/processor.rs:57 | a control of `C0_ARRAY` has a table entry in every state |
| BackendProcessorModel.TextLoopAtControl | swiftty_backend/src/processor.rs:46-65 | at a control: the text before it, the test of line 48, the control, then `process` from where the parser leads |
| BackendProcessorModel.OuterRound | swiftty_backend/src/processor.rs:40-66 | the invariant of the outer loop carried over one round |
| BackendProcessorModel.OuterRoundPanics | swiftty_backend/src/processor.rs:56-63 | a round whose sequence reaches a byte without a table entry panics |
| BackendProcessorModel.AbortedSequenceKept | swiftty_backend/src/processor.rs:46-50 | the last chunk of `process_mixed`: the two bytes of an unfinished '漢' stay pending and nothing is printed, where the test expects U+FFFD |
| BackendProcessorModel.AbortedText | swiftty_backend/src/processor.rs:273 | the last chunk is '漢' without its last byte, cut off by ESC |
| BackendProcessorModel.CorrectedTextLoop | swiftty_backend/src/processor.rs:40-66 | the outer loop with swiftty_vte's flush in place of the test of line 48 keeps the buffer bounded |
| BackendProcessorModel.CorrectedProcess | swiftty_backend/src/processor.rs:25-67 | the corrected `process` keeps the buffer bounded and the parser well formed |
| BackendProcessorModel.ScansAgree | swiftty_backend/src/processor.rs:114-126 | on bytes whose controls are all in `C0_ARRAY`, the processor's scan stops where the parser's would |
| BackendProcessorModel.CorrectedAtControl | swiftty_backend/src/processor.rs:46-65 | the corrected loop at a control: the text, its flush, the control, then `process` with nothing pending |
| BackendProcessorModel.CorrectedLoopAgrees | swiftty_backend/src/processor.rs:40-66 | on such bytes, the corrected outer loop is swiftty_vte's |
| BackendProcessorModel.CorrectedAgrees | swiftty_backend/src/processor.rs:25-67 | on such bytes, the corrected `process` is swiftty_vte's |
| BackendProcessorModel.ControlsOf | swiftty_backend/src/processor.rs:114-126 | a chunk of printable bytes, bytes from 0x80 up and controls of `C0_ARRAY` has no other control |
| BackendProcessorModel.CorrectedMixed | swiftty_backend/src/processor.rs:259-295 | the corrected `process` makes exactly the ten calls `process_mixed` expects |
| BackendProcessorModel.MixedControls | swiftty_backend/src/processor.rs:265-273 | the chunks of `process_mixed` have no control outside `C0_ARRAY` |
| BackendProcessor.Processor.Value | swiftty_backend/src/processor.rs:13-18 | the buffer and its counts read as a pending value, bounded exactly when the processor is well formed |
| BackendProcessor.Processor.constructor | swiftty_backend/src/processor.rs:21-23 | `Processor::new` has nothing pending |
| BackendProcessor.Processor.IsReadyToConsumeUtf8 | swiftty_backend/src/processor.rs:100-103 | ready exactly when nothing more is expected and bytes are buffered, which a well-formed buffer never is |
| BackendProcessor.Processor.ConsumeUtf8 | swiftty_backend/src/processor.rs:105-111 | `consume_utf8` prints the buffered bytes as one character and empties the buffer |
| BackendProcessor.Processor.ConsumeIfReady | swiftty_backend/src/processor.rs:92-94 | a ready buffer is consumed, any other left alone |
| BackendProcessor.Processor.ProcessUtf8 | swiftty_backend/src/processor.rs:69-98 | `process_utf8` changes the buffer and prints as `ProcessUtf8` says |
| BackendProcessor.Processor.Utf8Round | swiftty_backend/src/processor.rs:73-96 | one round changes the buffer, prints and consumes as `Round` says |
| BackendProcessor.Processor.Process | swiftty_backend/src/processor.rs:25-67 | `process` panics exactly where `Process` is None; otherwise it changes the buffer and the parser and makes the calls `Process` says |
| BackendProcessor.Processor.Round | swiftty_backend/src/processor.rs:41-65 | one round of the outer loop consumes at least one byte and agrees with `TextLoop` |
| BackendProcessor.Processor.Control | swiftty_backend/src/processor.rs:46-65 | a round at the control at `start` consumes at least one byte and agrees with `TextLoop` |
| BackendProcessor.Processor.Dispatch | swiftty_backend/src/processor.rs:52-63 | the control and the bytes after it go to the parser while it is inside a sequence, as `TextLoop` says |
| BackendProcessor.Processor.Text | swiftty_backend/src/processor.rs:46-50 | the text before a control: `process_utf8`, then the test of line 48 |
| BackendAction.ActionOf | swiftty_backend/src/action.rs:62-106 | a call is recorded exactly when it is `print`, `execute`, `put` or `unhook`; the others are `todo!()` |
| BackendAction.Recorded | swiftty_backend/src/action.rs:62-106 | a run of calls is recorded exactly when none of them is `todo!()` |
| BackendAction.RecordedInOrder | swiftty_backend/src/action.rs:62-87 | one action per call, each the record of the call at the same place |
| BackendAction.RecordedAppend | swiftty_backend/src/action.rs:62-87 | recording two runs one after the other records their concatenation |
| BackendAction.Dispatcher.constructor | swiftty_backend/src/action.rs:13-16 | `Dispatcher::new` has recorded nothing |
| BackendAction.Dispatcher.TakeDispatchedActions | swiftty_backend/src/action.rs:18-20 | the actions recorded so far are handed over, in order, leaving nothing behind |
| BackendAction.Dispatcher.Print | swiftty_backend/src/action.rs:63-65 | `print` appends its action |
| BackendAction.Dispatcher.Execute | swiftty_backend/src/action.rs:67-69 | `execute` appends its action |
| BackendAction.Dispatcher.Put | swiftty_backend/src/action.rs:71-73 | `put` appends its action |
| BackendAction.Dispatcher.Unhook | swiftty_backend/src/action.rs:85-87 | `unhook` appends its action |
| BackendAction.Dispatcher.Dispatch | swiftty_backend/src/action.rs:62-106 | one executor call appends its action, or panics with nothing recorded exactly when it is `todo!()` |
| BackendAction.Dispatcher.DispatchAll | swiftty_backend/src/action.rs:62-106 | a run of calls panics exactly when one is `todo!()`, and otherwise appends their records in order |
| BackendAction.IndexOf | swiftty_backend/src/action.rs:108-118 | `index_of` gives the first index of the needle, and none exactly when the needle is absent |
| GridCell.ApplyTemplate | saiga_backend/src/grid/cell.rs:24-30 | the cell takes the template's foreground, background and flags and keeps its own character |
| GridCell.CellExtensionality | saiga_backend/src/grid/cell.rs:3-10 | two cells with the same four fields are the same cell |
| GridCell.ApplyTemplateIdempotent | saiga_backend/src/grid/cell.rs:24-30 | applying a template twice is applying it once |
| GridCell.ApplyOwnStyle | saiga_backend/src/grid/cell.rs:24-30 | a cell under its own style is unchanged |
| GridModel.NewRow | saiga_backend/src/grid/mod.rs:27-35 | `Row::new` has exactly `columns` cells, each the default cell |
| GridModel.Blank | saiga_backend/src/grid/mod.rs:80-91 | `with_dimensions` makes `rows` rows of `columns` default cells |
| GridModel.GrowLines | saiga_backend/src/grid/resize.rs:24-33 | the old rows stay in front and each added row is a new row of the grid's width |
| GridModel.GrowColumns | saiga_backend/src/grid/resize.rs:45-60 | every row keeps its cells in front and is padded to the target with the fill cell |
| GridModel.ShrinkColumns | saiga_backend/src/grid/resize.rs:62-74 | every row is cut to its first `target` cells |
| GridModel.ResizedLines | saiga_backend/src/grid/resize.rs:6-43 | after the line step the grid has the new number of rows and the old width |
| GridModel.ResizedCells | saiga_backend/src/grid/resize.rs:6-74 | after `resize` the grid has the new dimensions; a cell inside both old and new bounds keeps its content, every other cell is the default |
| GridModel.ResizedSame | saiga_backend/src/grid/resize.rs:6-22 | resizing to the same dimensions changes nothing |
| GridModel.ShrinkLinesKeepsTop | saiga_backend/src/grid/resize.rs:35-43 | dropping lines keeps the top rows exactly |
| GridModel.ShrinkColumnsKeepsPrefix | saiga_backend/src/grid/resize.rs:35-74 | shrinking both ways keeps each remaining row's leading cells |
| GridModel.Moved | saiga_backend/src/lib.rs:56-86 | `move_cursor`: Up adds to the line and Down subtracts, Right and Left do the same to the column, all saturating at 0 and `usize::MAX`; the other coordinate stays; `reset_column` puts the column at 0 |
| GridModel.MovedBack | saiga_backend/src/lib.rs:56-86 | a move by 0 changes nothing, and away and back by the same count without saturation returns to the start |
| GridModel.Successor | saiga_backend/src/grid/mod.rs:165-192 | the position after a cell stays inside the width |
| GridModel.SuccessorIsRowMajor | saiga_backend/src/grid/mod.rs:165-192 | the successor is the next cell in row-major order |
| GridModel.CellAt | saiga_backend/src/grid/mod.rs:128-140 | indexing yields the cell exactly when the position is inside the grid |
| GridModel.AsWrittenPanicsAfterLast | saiga_backend/src/grid/mod.rs:165-192 | as written, the successor of the last cell is never the stop position, so `next` after the last cell indexes past the grid and panics |
| GridModel.AsWrittenOneCell | saiga_backend/src/grid/mod.rs:165-192 | on a one-cell grid the first `next` yields the cell and the second panics |
| GridModel.CorrectedVisitsAll | saiga_backend/src/grid/mod.rs:165-192 | the corrected iterator starts at the origin, steps one cell in row-major order from every cell but the last, and finishes after the last |
| GridModel.CorrectedAgreesBeforeLast | saiga_backend/src/grid/mod.rs:165-192 | before the last cell the corrected iterator does what the written one does |
| Grid.Grid.WithDimensions | saiga_backend/src/grid/mod.rs:80-91 | blank rows of the dimensions, the cursor at the origin, no saved cursor |
| Grid.Grid.Width | saiga_backend/src/grid/mod.rs:97-99 | the width is the number of columns, the length of every row |
| Grid.Grid.Height | saiga_backend/src/grid/mod.rs:101-103 | the height is the number of rows |
| Grid.Grid.CellAtCursor | saiga_backend/src/grid/mod.rs:118-120 | the cell at the cursor's position |
| Grid.Grid.SetAt | saiga_backend/src/grid/mod.rs:122-140 | a write through the index changes that one cell and nothing else |
| Grid.Grid.SwapInRow | saiga_backend/src/grid/mod.rs:142-154 | two cells of one row change places, every other cell stays |
| Grid.Grid.Resize | saiga_backend/src/grid/resize.rs:6-22 | the rows become `GridModel.Resized` of the old rows, the dimensions the new ones, and the cursor and its template are kept |
| Grid.Grid.GrowLinesTo | saiga_backend/src/grid/resize.rs:24-33 | the rows become `GrowLines` of the old rows |
| Grid.Grid.ShrinkLinesTo | saiga_backend/src/grid/resize.rs:35-43 | the rows become the first `target` old rows |
| Grid.Grid.GrowColumnsTo | saiga_backend/src/grid/resize.rs:45-60 | the rows become `GrowColumns` with the default cell under the cursor's template |
| Grid.Grid.ShrinkColumnsTo | saiga_backend/src/grid/resize.rs:62-74 | the rows become `ShrinkColumns` of the old rows |
| Grid.GridIterator.constructor | saiga_backend/src/grid/mod.rs:105-116 | nothing yielded yet and the stop position is (height, width) |
| Grid.GridIterator.Next | saiga_backend/src/grid/mod.rs:165-192 | `next` does what `GridModel.NextAsWritten` says: stop, panic, or yield the cell and remember its position |
| Terminal.RotatedRight | saiga_backend/src/lib.rs:97-107 | the shifted row keeps the cells before the cursor, moves every later cell one place right and brings the last cell to the cursor |
| Terminal.RotatedRightAtEnd | saiga_backend/src/lib.rs:97-107 | shifting from the last cell changes nothing |
| Terminal.RotatedRightStep | saiga_backend/src/lib.rs:104-106 | each swap of the reverse loop moves the shifted part one place left |
| Terminal.Written | saiga_backend/src/lib.rs:46-52 | the written cell has the template's style and the character |
| Terminal.WrittenForgetsCell | saiga_backend/src/lib.rs:46-52 | the written cell does not depend on the cell written over |
| Terminal.Terminal.constructor | saiga_backend/src/lib.rs:28-35 | two distinct blank grids of the dimensions, cursors at the origin, every mode flag off |
| Terminal.Terminal.Resize | saiga_backend/src/lib.rs:37-40 | both grids are resized to the same dimensions, cursors kept |
| Terminal.Terminal.SwapGrids | saiga_backend/src/lib.rs:42-44 | the two grids change places, the mode is kept |
| Terminal.Terminal.WriteAtCursor | saiga_backend/src/lib.rs:46-52 | only the cursor's cell changes, to `Written` with the cursor's template |
| Terminal.Terminal.MoveCursor | saiga_backend/src/lib.rs:56-86 | the cursor moves by `GridModel.Moved` and no cell changes |
| Terminal.Terminal.PutChar | saiga_backend/src/lib.rs:88-120 | no width changes nothing; width 1 before the last column shifts the row right, writes the cell and steps the cursor; every other case panics |
| Terminal.Terminal.ShiftRight | saiga_backend/src/lib.rs:97-107 | the reverse swap loop leaves the row `RotatedRight` from the cursor, other rows untouched |
| Terminal.Terminal.Newline | saiga_backend/src/lib.rs:122-128 | a line feed, then column 0 when `line_feed_new_line` is set |
| Terminal.Terminal.CarriageReturn | saiga_backend/src/lib.rs:130-132 | the column becomes 0, the line stays |
| Terminal.Terminal.Linefeed | saiga_backend/src/lib.rs:134-141 | the cursor moves to the next line only when that line is at or past the height |
| TerminalHandler.Terminal.constructor | saiga_backend/src/terminal.rs:11-14 | a terminal over a grid whose listener has received nothing |
| TerminalHandler.Terminal.SetCharAtCursor | saiga_backend/src/terminal.rs:17-21 | only the `char` field of the cursor's cell changes |
| TerminalHandler.Terminal.SetTitle | saiga_backend/src/terminal.rs:25-28 | exactly one `SetTitle` event with the title is sent; the grid is untouched |
| TerminalHandler.Terminal.SetCursorPosition | saiga_backend/src/terminal.rs:34-37 | both coordinates are replaced; cells and saved cursor stay |
| TerminalHandler.Terminal.SetCursorLine | saiga_backend/src/terminal.rs:39-41 | the line is replaced, the column kept |
| TerminalHandler.Terminal.SetCursorColumn | saiga_backend/src/terminal.rs:43-45 | the column is replaced, the line kept |
| TerminalHandler.Terminal.MoveCursor | saiga_backend/src/terminal.rs:55-93 | the cursor moves by `GridModel.Moved` and no cell changes |
| TerminalHandler.Terminal.PutChar | saiga_backend/src/terminal.rs:95-107 | no width changes nothing; zero width panics, and so does a `column + width` that overflows `usize`; a character that fits before the last column sets only the cursor cell's `char`; otherwise nothing changes |
| TerminalHandler.Terminal.RestoreCursorPosition | saiga_backend/src/terminal.rs:141-145 | a saved cursor is taken out of its slot and becomes the cursor; with none nothing moves |
| TerminalHandler.Terminal.Backspace | saiga_backend/src/terminal.rs:155-161 | one column left except at column 0, the same as moving left by one |
| InputKey.BuildKeyToCharMap | saiga_input/src/key.rs:46-127 | the table holds at every key exactly that key's character |
| InputKey.SetLetters | saiga_input/src/key.rs:57-82 | the letter `set!` lines give A to Z their characters and leave every other entry |
| InputKey.SetNumbers | saiga_input/src/key.rs:83-92 | the digit lines give Zero to Nine their characters and leave every other entry |
| InputKey.SetPunctuation | saiga_input/src/key.rs:93-105 | the punctuation lines give Semicolon to Backslash their characters and leave every other entry |
| InputKey.SetKeypad | saiga_input/src/key.rs:109-124 | the keypad lines give the keypad digits and operators other than Enter their characters and leave every other entry |
| InputKey.KeypadRange | saiga_input/src/key.rs:338-372 | a key is a keypad key exactly when it is declared from KP0 to KPBegin |
| InputKey.ModifierKeys | saiga_input/src/key.rs:305-336 | the modifiers are exactly the eight left and right Shift, Control, Alt and Super keys |
| InputKey.ModifierNotPrintable | saiga_input/src/key.rs:295-336 | a modifier has no character and is not on the keypad |
| InputKey.PrintableKeys | saiga_input/src/key.rs:295-298 | exactly the letters, digits, punctuation, Tab and the keypad digits and operators other than Enter are printable; Tab is `'\\t'` |
| InputKey.FirstWithChar | saiga_input/src/key.rs:14-31 | the search finds the first non-keypad key with the character, or nothing when no later key has it |
| InputKey.FromAscii | saiga_input/src/key.rs:290-293 | `from_ascii` gives a non-keypad key whose character is the byte, and None exactly when there is none |
| InputKey.AsciiToKey | saiga_input/src/key.rs:14-31 | the pass over every variant gives `from_ascii` |
| InputKey.BuildAsciiToKeyMap | saiga_input/src/key.rs:9-44 | the table holds `ascii_to_key` of each of the 256 bytes |
| InputKey.KeyOfCharSound | saiga_input/src/key.rs:9-44 | the key found for a character is a non-keypad key with that character, and the character is ASCII |
| InputKey.LetterSound | saiga_input/src/key.rs:57-82 | a lower-case letter finds a letter key |
| InputKey.DigitSound | saiga_input/src/key.rs:83-92 | a digit finds a digit key, not a keypad key |
| InputKey.PunctuationSound | saiga_input/src/key.rs:93-107 | other characters find punctuation or Tab |
| InputKey.KeyOfCharComplete | saiga_input/src/key.rs:9-44 | every non-keypad key with a character is found from it |
| InputKey.LetterComplete | saiga_input/src/key.rs:57-82 | every letter key is found from its character |
| InputKey.DigitComplete | saiga_input/src/key.rs:83-92 | every digit key is found from its character |
| InputKey.PunctuationComplete | saiga_input/src/key.rs:93-107 | every punctuation key and Tab is found from its character |
| InputKey.FromAsciiIsInverse | saiga_input/src/key.rs:9-44 | the byte table is the inverse of the characters of the non-keypad keys |
| InputKey.FromAsciiRoundTrip | saiga_input/src/key.rs:9-44 | `from_ascii` of a non-keypad key's character gives back that key |
| InputKey.StarIsKeypad | saiga_input/src/key.rs:121 | `*` is only the keypad's KPMultiply character |
| InputKey.StarHasNoKey | saiga_input/src/key.rs:9-44 | so the byte `*` has no key |
| InputKey.EffectiveMods | saiga_input/src/key.rs:414-420 | with no text every held modifier counts; with text, those held and not consumed; never one not held |
| FunctionKeys.ModifiersAreMasks | saiga_input/src/function_keys.rs:60-81 | the fifteen combinations are the bits of 1 to 15: distinct, non-empty, made of the four modifiers, the mode value one more than the bits |
| FunctionKeys.PcStyle | saiga_input/src/function_keys.rs:83-97 | one entry per combination in order, with that combination and the bytes `fmt` gives for index + 2, the rest `Entry::default` |
| FunctionKeys.PcStyleEntries | saiga_input/src/function_keys.rs:47-97 | the fifteen entries have distinct non-empty modifiers and default modes, each sequence `fmt` of one more than its modifier bits |
| Theme.CubeIndex | saiga_frontend/src/theme.rs:93 | a cube index lies between 16 and 231 |
| Theme.Ansi256 | saiga_frontend/src/theme.rs:86-112 | an index has a palette entry exactly when it is 16 or more |
| Theme.LevelValues | saiga_frontend/src/theme.rs:94-98 | the cube levels are 0, 95, 135, 175, 215 and 255, strictly rising |
| Theme.CubeIndexInverse | saiga_frontend/src/theme.rs:89-103 | every cube colour is at its index and at no other cube index |
| Theme.GreyIndex | saiga_frontend/src/theme.rs:105-109 | grey step i is at 232 + i |
| Theme.GreyIsNotCube | saiga_frontend/src/theme.rs:94-108 | no grey step is a cube colour |
| Theme.Ansi256Distinct | saiga_frontend/src/theme.rs:86-112 | the 240 entries are 240 different colours |
| Theme.BuildAnsi256Colors | saiga_frontend/src/theme.rs:86-112 | exactly the indices 16 to 255 are in the map, 240 of them, each holding the colour its index names |
| Theme.InsertCube | saiga_frontend/src/theme.rs:89-103 | the nested loops fill exactly 16 to 231 with the cube colours |
| Theme.InsertGreyRamp | saiga_frontend/src/theme.rs:105-109 | the grey loop adds exactly 232 to 255 with the grey steps |

## Left out

- Rendering, windowing, the pty, the UI event loop and every other form of I/O are not part of this model.
- `Color::from_rgb8` and the rest of the floating-point colour code are not part of this model. A palette colour is its three 8-bit components.
- `simdutf8::from_utf8`, the foreign validating decoder of saiga_vte/src/lib.rs:237 and saiga_vte/src/utf8.rs:56-59, is replaced by the reference decoder `Utf8Decode.FromUtf8`, a definition of the well-formed sequences of section 4 of RFC 3629.
- The `std::simd` lanes of swiftty_backend are modelled lane by lane as a loop over sixteen bytes.
- A character's display width (`unicode_width`) is a parameter of both `put_char` models.
- The `Key` enum is modelled by its discriminant, a number below 131, since the program indexes its tables by `key as usize`. The winit `From<PhysicalKey>` conversion (saiga_input/src/key.rs:424-547) and the `KeyEncoder` of saiga_input/src/encoder.rs are not part of this model.
- FunctionKeys.ModifiersAreMasks: `Mods::SHIFT`, `ALT`, `CTRL` and `META`, which saiga_input/src/function_keys.rs:62-81 uses, are not defined by the `Mods` of saiga_input/src/key.rs:374-388. The model takes xterm's modifier bits 1, 2, 4 and 8.
- FunctionKeys.PcStyle: `fmt` is a function from the mode value to bytes, standing for `fmt(code).into_bytes()`.
- Executor and handler calls whose bodies are `todo!()` are modelled as panics (None) and not further.
  - This covers the `ansi::Processor` calls other than `execute`, the swiftty_backend `Dispatcher` calls `hook`, `osc_dispatch`, `esc_dispatch` and `csi_dispatch`, and the unimplemented handler methods of both saiga_backend terminals.
  - The `todo!()` handler methods are left out entirely: `set_cursor_shape`, `set_charset`, `set_clipboard`, `set_mode`, `put_tab`, the clears, `save_cursor_position`, and, in saiga_backend/src/terminal.rs, `carriage_return` and `linefeed`.
- `Dispatcher::process` of swiftty_backend/src/action.rs:22-55 is not part of this model. Its loop exit is inverted and the `process_utf8` it calls is `todo!()`.
- The `Backend` and `Executor` stubs of swiftty_backend/src/lib.rs, which only print or panic, are not part of this model.
- swiftty_vte's parser calls a transition table, a UTF-8 module, a C0 set, an `in_escape_sequence` and a parameter store with `push_subparam` and `next_param`. None of these is defined in swiftty_vte's own files. The model takes saiga_vte's: `Table`, `Utf8`, `C0` and the 16-parameter `VteParams.Params`.
- swiftty_vte's own flat 32-entry `Params` (swiftty_vte/src/param.rs) is modelled by itself in `SwifttyParam`. The parser models do not use it.
- The swiftty tests that expect 32 parameters are not proved, because with saiga's 16-parameter store the parser keeps 16 and sets `ignore`. These are `parse_max_params` and `parse_params_ignore_long_params` for CSI (swiftty_vte/src/lib.rs:371-419) and `parse_max_params` for DCS (swiftty_vte/src/lib.rs:567-587).
- swiftty_backend's `C0_SPLATS` (swiftty_backend/src/ansi.rs:11) has 33 lanes, so swiftty's own `c0::ALL` has 33 members, and that module is not part of this model. `BackendScan` uses saiga's 32-member `C0.ALL`, which lacks NAK. The corrected set `C0.ALL_WITH_NAK` also has 33 members, but whether swiftty's 33rd byte is NAK is unknown.
- The corrected `VteModel.CorrectedAdvance` is stated on parser values only. `Vte.Parser.Advance` and the models built on it follow the written `C0.ALL`.
- saiga_backend/src/grid/resize.rs reads `dimensions.lines` where saiga_backend/src/grid/mod.rs names the field `rows`. The model reads `lines` as `rows`.
- saiga_backend/src/grid/mod.rs:93-95 declares `resize` as `todo!()`, while saiga_backend/src/grid/resize.rs implements it. `Grid.Grid.Resize` follows resize.rs.
- The two `Position` types disagree: the handler's `Line` is `i32` (saiga_vte/src/ansi/handler.rs:22), the grid's is `usize` (saiga_backend/src/grid/mod.rs:7), and saiga_backend/src/grid/cursor.rs uses the former. The model uses `usize` for both coordinates, so `count as Line` in saiga_backend/src/terminal.rs:66 and :78 is no conversion here.
- TerminalHandler.Terminal.SetTitle: the listener is called through `.event`, where `EventListener` (saiga_backend/src/event.rs:7-8) declares `on_event`. The model records the event either way.
- TerminalHandler.Terminal.PutChar reports an overflowing `column + width` as a panic, as the overflow check of a debug build does. A release build wraps the sum and then fails the index into the row instead, except on a row nearly `usize::MAX` cells wide, which the model does not consider.
- Terminal.Terminal.Linefeed and Terminal.Terminal.Newline require the cursor line below `usize::MAX`. `line + 1` overflows there, and the model does not say whether a debug build panics or a release build wraps.
- Index preconditions that every caller meets are kept on these members instead of being modelled as panics:
  - Vte.Intermediates.Push requires fewer than two held (saiga_vte/src/lib.rs:86-89); its callers check `is_full` first.
  - Utf8.Utf8Collector.Push requires fewer than four bytes (saiga_vte/src/utf8.rs:17-20); the collecting round never wants more than four.
  - VteParams.Params.PushSubparam requires a free slot `len` (saiga_vte/src/param.rs:130-134); every caller guards with `is_full`.
  - Vte.OscHandler.CloseParam and SwifttyOsc.Handler.CloseParam require fewer than sixteen entries in use; the `put` and `end` that call them check that count first.
  - Grid.Grid.SetAt, Grid.Grid.SwapInRow, Grid.Grid.At and Grid.Grid.CellAtCursor require positions inside the grid. The handler methods that call them check the bounds first and report a position outside as a panic.
- Utf8.IntoChar requires non-empty bytes. Both `into_char` functions panic on empty input (saiga_vte/src/utf8.rs:61-66, swiftty_backend/src/utf8.rs:23-28), and every caller hands them a non-empty buffer.
- The `GridIterator` after a panic is not modelled further: `Grid.GridIterator.Next` says nothing about `current` once it has panicked.
- `find_utf8_start` (swiftty_backend/src/utf.rs:1-5) is a stub. It is modelled as the stub it is, returning None.
- The saiga_vte test `process_mixed` (saiga_vte/src/lib.rs:958-984) expects UTF-8 to be reassembled across `advance` calls. The collector that would do so is commented out (saiga_vte/src/lib.rs:257-290), so the model follows the code and that expectation is not proved.
- The swiftty_backend test `process_mixed` (swiftty_backend/src/processor.rs:259-295) expects a final U+FFFD that the code as written never prints. See "## Findings".

## Findings

| source | as written | input that shows it | evidently intended | confidence | as-written member | corrected member |
|---|---|---|---|---|---|---|
| saiga_backend/src/grid/mod.rs:165-192 | the successor of the last cell (h-1, w-1) is (h, 0), never the stop position (h, w), so `next` indexes past the grid | a 1x1 grid: the first `next` yields the cell, the second panics | after the last cell, `next` returns None | high, not executed | GridModel.AsWrittenPanicsAfterLast | GridModel.CorrectedVisitsAll |
| swiftty_backend/src/processor.rs:46-50 | the branch that would print U+FFFD for an aborted sequence before a control tests `is_ready_to_consume_utf8`, which cannot hold there, so the aborted bytes stay buffered | `E6 BC ESC` after the chunks of `process_mixed`: no U+FFFD is printed and the two bytes remain pending | an unfinished sequence cut off by a control prints one U+FFFD and is discarded, as the test expects | high, not executed | BackendProcessorModel.AbortedSequenceKept | BackendProcessorModel.CorrectedMixed |
| swiftty_vte/src/osc.rs:69-79 | `dispatch` slices all sixteen stored ranges before taking the `params_num` in use, so a stale range from a longer earlier string can index past the new buffer | `ESC ] a ; b BEL` then `ESC ] BEL`: the second dispatch slices `raw[1..2]` of an empty buffer and panics | only the ranges in use are sliced, so the second string dispatches one empty parameter | high, not executed | SwifttyOsc.StaleEntryPanics | SwifttyOsc.EndIsReference |
| saiga_vte/src/ansi/c0.rs:70-73 | `ALL` omits NAK (0x15), so in the ground state the text path of `advance` prints NAK as a character | the single byte 0x15 fed to a new parser: `advance` prints it | NAK is executed, as the transition table says for every C0 control of the ground state | medium, not executed | VteProperties.NakInTextIsPrinted | VteProperties.CorrectedAdvanceIsFeed |
