# flightgear-python, modelled in Dafny

flightgear-python talks to the FlightGear flight simulator in two ways.

- **UDP "native" packets.** Fixed-layout binary records: the Flight Dynamics Model packet (FDM v25, big-endian), the Controls packet (v27, big-endian) and the GUI packet (v8, little-endian). A child process receives each packet, parses it, and optionally lets a user callback rewrite it. It then builds the packet again and sends it back. The parent process passes data to that callback through an `EventPipe`: an event flag plus a pipe.
- **The telnet property server.** Commands are sent as lines ending in CRLF. Replies are collected up to the `/> ` prompt. Property lines of the shape `key = 'value' (type)` are parsed and converted, and directories can be listed recursively.

This project models those parts and proves properties of them:

| file | module | what it models |
|---|---|---|
| `bytes.dfy` | `Bytes` | unsigned integers in big- and little-endian byte order, 32-bit two's complement, bit strings and bit-field packing |
| `codec.dfy` | `Codec` | a generic layout of fields (version tag, padding, u32, s32, opaque f32/f64 words, enums, fixed-count arrays, a 32-bit bit-field word), with `Decode` and `Encode` and construct's error kinds |
| `codec_laws.dfy` | `CodecLaws` | round trips in both directions (padding reproduced byte for byte), when building succeeds, tag checking, array counts, integer ranges |
| `fdm_v25.dfy`, `ctrls_v27.dfy`, `gui_v8.dfy` | `FdmV25`, `CtrlsV27`, `GuiV8` | the three packet tables, with their sizes (552, 744, 108), tags, enum codes, array counts and the `freeze` word |
| `event_pipe.dfy` | `EventPipes` | the three EventPipe versions as classes over a FIFO and a flag, specified by a `Mailbox` value |
| `text.dfy` | `Text` | `strip_end`, `rstrip`, and `split`/`join` on CRLF |
| `props.dfy` | `Props` | `PropsConnection`: framing, reply collection, `-ERR` detection, the line parser and its conversion table, `connect`, `get_prop`, `set_prop` |
| `list_props.dfy` | `PropsList` | the recursive `list_props`, as a specification function and as methods with the source's loop |
| `rx_loop.dfy` | `RxLoop` | one iteration of `_rx_process` and the `FDMConnection` version switch, in both versions of `fg_if.py` |

Two versions of the interface are modelled side by side. The current one is `flightgear_python/fg_if.py` together with `flightgear_python/general_util.py`. The older one is `src/flightgear_python/fg_if.py`, which has an EventPipe that does not coalesce, reports a tag mismatch as `AssertionError`, has no radian correction and always calls `sendto`.

How the code handles three edge cases:

- **Short packets.** A packet shorter than its layout raises construct's `StreamError`, and `_rx_process` passes that error through unchanged. Only a tag mismatch (`ConstError`) becomes `FGCommunicationError`, or `AssertionError` in the older version.
- **FDM versions.** The version is a constructor argument. A version other than 24 or 25 raises `NotImplementedError`.
- **Recursion limit of `list_props`.** A limit that is not None and at most 1, including 0, lists one level only. A limit of 2 expands one level of subdirectories.

## Model

| member | source | states |
|---|---|---|
| Bytes.UintRoundTrip | flightgear_python/gui_v8.py:27-34 | reading back an n-byte unsigned integer written in either byte order gives the integer |
| Bytes.UintBytesRoundTrip | flightgear_python/fdm_v25.py:43-69 | writing back the integer read from any byte string gives the same bytes |
| Bytes.ToSigned32 | flightgear_python/fdm_v25.py:69 | Int32sb: the signed value lies in [-2^31, 2^31) and is congruent to the unsigned word mod 2^32 |
| Bytes.FromSigned32 | flightgear_python/fdm_v25.py:69 | every signed 32-bit value has a word that decodes back to it |
| Bytes.UnpackPack | flightgear_python/ctrls_v27.py:76-82 | unpacking the bit string packed from fitting parts gives the parts back |
| Bytes.PackUnpack | flightgear_python/ctrls_v27.py:76-82 | packing the parts unpacked from a bit string gives its first Sum(widths) bits back |
| Bytes.FromBitsAppend | flightgear_python/ctrls_v27.py:76-82 | the most significant bits come first: value(a + b) = value(a)·2^len(b) + value(b) |
| Codec.CodeOf | flightgear_python/ctrls_v27.py:49 | the code found for an enum name is one paired with it in the table, and None means the name is absent |
| Codec.NameOf | flightgear_python/ctrls_v27.py:49 | the name found for a code is one paired with it, and None means the code is absent |
| Codec.EnumTableInverse | flightgear_python/ctrls_v27.py:49 | in a table with distinct names and codes, the name maps to the code exactly when the code maps to the name |
| Codec.DecodeFields | flightgear_python/fdm_v25.py:15-81 | a successful parse gives one value per field and consumes exactly the table's size from the front of the input |
| Codec.EncodeFields | flightgear_python/fdm_v25.py:15-81 | a successful build is exactly the table's size |
| Codec.FieldsAppend | flightgear_python/ctrls_v27.py:17-84 | size, validity and tag-freedom of a table are those of its two halves |
| CodecLaws.EncodeOk | flightgear_python/ctrls_v27.py:17-84 | building succeeds exactly on records with one encodable value per field, and then yields Size(layout) bytes |
| CodecLaws.DecodeEncode | flightgear_python/ctrls_v27.py:17-84 | a well-formed record builds, and parsing the build followed by any trailing bytes gives the record back |
| CodecLaws.EncodeDecode | flightgear_python/ctrls_v27.py:17-84 | a parsed record is well-formed, and building it reproduces the first Size(layout) bytes of the input, padding included |
| CodecLaws.DecodeFieldsLength | flightgear_python/fdm_v25.py:17-81 | a table without a tag parses exactly when the input is long enough, and otherwise fails with StreamError |
| CodecLaws.DecodeTagged | flightgear_python/fdm_v25.py:16 | a tagged layout gives StreamError below 4 bytes, ConstError on a wrong tag, and otherwise parses exactly when the input is long enough; parsing succeeds iff the length suffices and the tag matches |
| CodecLaws.TagBytes | flightgear_python/gui_v8.py:16 | a 4-byte word reads as the tag exactly when it is the tag's encoding in that byte order |
| CodecLaws.ArrayCountFixed | flightgear_python/fdm_v25.py:43-67 | in a well-formed record every array field holds exactly the table's count of elements, whatever the num_* fields say |
| CodecLaws.DecodeWordRange | flightgear_python/fdm_v25.py:68-69 | U32 decodes to [0, 2^32), S32 to [-2^31, 2^31), congruent to the unsigned reading |
| CodecLaws.DecodeEncodeEnum | flightgear_python/fdm_v25.py:44 | a canonical enum value (a known name, or an unnamed code) builds and parses back to itself |
| CodecLaws.EncodeDecodeEnum | flightgear_python/fdm_v25.py:44 | any 4-byte enum word parses to a canonical value that builds back to the same word |
| CodecLaws.DecodeEncodeBitFields | flightgear_python/ctrls_v27.py:76-82 | a bit-field value whose parts fit builds and parses back to itself |
| CodecLaws.EncodeDecodeBitFields | flightgear_python/ctrls_v27.py:76-82 | any 4-byte bit-field word parses and builds back to the same word |
| CodecLaws.EncodeBitFieldsWord | flightgear_python/ctrls_v27.py:76-82 | a bit-field value builds to the 4-byte word of its packed bits |
| CodecLaws.DecodeBitFieldsWord | flightgear_python/ctrls_v27.py:76-82 | a 4-byte word parses to the parts of its unpacked bits |
| FdmV25.FdmTagged | flightgear_python/fdm_v25.py:15-81 | the FDM table is 552 bytes and starts with the tag 25 |
| FdmV25.FdmTagBytes | flightgear_python/fdm_v25.py:16 | the first word reads as big-endian 25 exactly when it is 00 00 00 19 |
| FdmV25.FdmDecodeOutcome | flightgear_python/fdm_v25.py:15-81 | parsing succeeds iff the input has at least 552 bytes and starts 00 00 00 19; a wrong tag is ConstError, a short input StreamError |
| FdmV25.FdmEncodeDecode | flightgear_python/fdm_v25.py:15-81 | building a parsed packet reproduces its first 552 bytes, `_padding` included |
| FdmV25.FdmDecodeEncode | flightgear_python/fdm_v25.py:15-81 | a well-formed record builds to 552 bytes that parse back to it |
| FdmV25.EngStateBuildCodes | flightgear_python/fdm_v25.py:44 | off, cranking, running build as 0, 1, 2 |
| FdmV25.EngStateParseCodes | flightgear_python/fdm_v25.py:44 | 0, 1, 2 parse as off, cranking, running, and any other code has no name |
| FdmV25.FdmFieldPositions | flightgear_python/fdm_v25.py:43-69 | eng_state, fuel_quantity and wow are arrays of 4, 4 and 3; cur_time_s is U32 and warp_s is S32 |
| FdmV25.FdmFieldShapes | flightgear_python/fdm_v25.py:43-69 | in every well-formed record those arrays have 4, 4 and 3 elements, cur_time_s is unsigned and warp_s signed 32-bit |
| CtrlsV27.CtrlsTagged | flightgear_python/ctrls_v27.py:17-84 | the Controls table is 744 bytes (its `_reserved` block is 4·25 = 100 bytes) and starts with the tag 27 |
| CtrlsV27.CtrlsTagBytes | flightgear_python/ctrls_v27.py:18 | the first word reads as big-endian 27 exactly when it is 00 00 00 1B |
| CtrlsV27.CtrlsDecodeOutcome | flightgear_python/ctrls_v27.py:17-84 | parsing succeeds iff the input has at least 744 bytes and starts 00 00 00 1B; a wrong tag is ConstError, a short input StreamError |
| CtrlsV27.CtrlsEncodeDecode | flightgear_python/ctrls_v27.py:17-84 | building a parsed packet reproduces its first 744 bytes, all padding and `_reserved` included |
| CtrlsV27.CtrlsDecodeEncode | flightgear_python/ctrls_v27.py:17-84 | a well-formed record builds to 744 bytes that parse back to it |
| CtrlsV27.CtrlsFieldPositions | flightgear_python/ctrls_v27.py:32-61 | the switch arrays (master_bat, master_alt, starter_power, fuel_pump_power among them) are on/off enums over 4 engines, magnetos is 4 u32 words, feed_tank_to and reverse have 4 entries, fuel_selector 8, xfer_pump 5, gear_handle is the up/down enum |
| CtrlsV27.CtrlsArrayCounts | flightgear_python/ctrls_v27.py:32-53 | every well-formed record has those element counts, including 4 for master_alt, magnetos, starter_power and fuel_pump_power |
| CtrlsV27.OnOffCodes | flightgear_python/ctrls_v27.py:32-35 | off/on build as 0/1, and 0/1 parse as off/on, any other code unnamed |
| CtrlsV27.GearHandleCodes | flightgear_python/ctrls_v27.py:61 | up/down build as 0/1, and 0/1 parse as up/down |
| CtrlsV27.OilPressBuildCodes | flightgear_python/ctrls_v27.py:49 | normal, low, full_fail build as 0, 1, 2 |
| CtrlsV27.OilPressParseCodes | flightgear_python/ctrls_v27.py:49 | 0, 1, 2 parse as normal, low, full_fail |
| CtrlsV27.FreezeBits | flightgear_python/ctrls_v27.py:76-82 | the packed freeze bits have the value other·8 + fuel·4 + position·2 + master |
| CtrlsV27.FreezeWord | flightgear_python/ctrls_v27.py:76-82 | the packed freeze word is the big-endian u32 of that value |
| CtrlsV27.FreezeBuild | flightgear_python/ctrls_v27.py:76-82 | building freeze with other < 2^29 and bits in {0,1} gives that big-endian word |
| CtrlsV27.FreezeParts | flightgear_python/ctrls_v27.py:76-82 | unpacking any word gives other < 2^29 and three bits whose combination is the word's value |
| CtrlsV27.FreezeParse | flightgear_python/ctrls_v27.py:76-82 | parsing any freeze word gives those four parts |
| GuiV8.GuiTagged | flightgear_python/gui_v8.py:15-38 | the GUI table is 108 bytes and starts with the tag 8 |
| GuiV8.GuiTagBytes | flightgear_python/gui_v8.py:16 | the first word reads as little-endian 8 exactly when it is 08 00 00 00 |
| GuiV8.GuiDecodeOutcome | flightgear_python/gui_v8.py:15-38 | parsing succeeds iff the input has at least 108 bytes and starts 08 00 00 00; big-endian 00 00 00 08 is ConstError |
| GuiV8.GuiEncodeDecode | flightgear_python/gui_v8.py:15-38 | building a parsed packet reproduces its first 108 bytes, `_padding0` included |
| GuiV8.GuiDecodeEncode | flightgear_python/gui_v8.py:15-38 | a well-formed record builds to 108 bytes that parse back to it |
| GuiV8.GuiEncodeTag | flightgear_python/gui_v8.py:16 | every built GUI packet starts 08 00 00 00 |
| GuiV8.GuiFieldPositions | flightgear_python/gui_v8.py:28-34 | fuel_quantity is an array of 4 floats; warp_s and in_range are U32 |
| GuiV8.GuiFieldShapes | flightgear_python/gui_v8.py:28-34 | every well-formed record has 4 fuel quantities and unsigned warp_s and in_range |
| EventPipes.Post | flightgear_python/fg_if.py:55-58 | after a coalescing parent_send the flag is set |
| EventPipes.PostAlways | src/flightgear_python/fg_if.py:25-27 | after an older parent_send the flag is set and one more message is pending |
| EventPipes.Take | flightgear_python/fg_if.py:60-70 | child_recv returns nothing exactly when nothing is pending |
| EventPipes.PostTakeKeepOneSlot | flightgear_python/fg_if.py:55-70 | parent_send and child_recv keep "one message pending iff the flag is set", and a send while set changes nothing |
| EventPipes.SecondPostDropped | flightgear_python/fg_if.py:55-58 | a second parent_send before any child_recv leaves only the first message pending |
| EventPipes.TakeThenPostDelivers | flightgear_python/fg_if.py:60-70 | child_recv returns the oldest message and clears the flag, so the next parent_send is delivered and received |
| EventPipes.PlainTwoSendsOneReceive | src/flightgear_python/fg_if.py:25-32 | two sends leave two messages; one receive returns the first and clears the flag with the second still pending |
| EventPipes.EventPipe.ChildPoll | flightgear_python/fg_if.py:43 | child_poll is true iff a message is pending |
| EventPipes.EventPipe.ParentSend | flightgear_python/fg_if.py:47-58 | the new state is Post of the old: enqueue and set the flag only when it is clear |
| EventPipes.EventPipe.ChildRecv | flightgear_python/fg_if.py:60-70 | the result and new state are Take of the old: the oldest message, flag cleared |
| EventPipes.DuplexEventPipe.ChildPoll | flightgear_python/general_util.py:29 | true iff a parent-to-child message is pending |
| EventPipes.DuplexEventPipe.ParentPoll | flightgear_python/general_util.py:31 | true iff a child-to-parent message is pending |
| EventPipes.DuplexEventPipe.ParentSend | flightgear_python/general_util.py:33-44 | coalescing send; the child-to-parent queue is unchanged |
| EventPipes.DuplexEventPipe.ChildRecv | flightgear_python/general_util.py:46-56 | oldest parent-to-child message, flag cleared; the child-to-parent queue is unchanged |
| EventPipes.DuplexEventPipe.ChildSend | flightgear_python/general_util.py:28 | appends to the child-to-parent queue whatever the flag; the other direction is unchanged |
| EventPipes.DuplexEventPipe.ParentRecv | flightgear_python/general_util.py:30 | pops the oldest child-to-parent message; the other direction is unchanged |
| EventPipes.PlainEventPipe.ChildPoll | src/flightgear_python/fg_if.py:21 | true iff a message is pending |
| EventPipes.PlainEventPipe.ParentSend | src/flightgear_python/fg_if.py:25-27 | always enqueues and sets the flag |
| EventPipes.PlainEventPipe.ChildRecv | src/flightgear_python/fg_if.py:29-32 | oldest message, flag cleared |
| EventPipes.CoalescingExchange | flightgear_python/fg_if.py:47-70 | on a fresh pipe, send a, send b, receive gives a and leaves the pipe empty |
| EventPipes.PlainExchange | src/flightgear_python/fg_if.py:25-32 | the same sequence on the older pipe gives a and leaves b pending with the flag clear |
| EventPipes.DuplexExchange | flightgear_python/general_util.py:19-56 | child-to-parent messages arrive in order, unaffected by a parent-to-child exchange in between |
| Text.StripEndRemoves | flightgear_python/general_util.py:68-69 | a present non-empty suffix is removed: the result plus the suffix is the text |
| Text.StripEndKeeps | flightgear_python/general_util.py:68-70 | an empty or absent suffix leaves the text unchanged |
| Text.StripEndPrefix | flightgear_python/general_util.py:59-70 | the result is a prefix of the text, either as long as the text or shorter by exactly the suffix length |
| Text.StripEndAppend | flightgear_python/fg_if.py:229-232 | strip_end undoes appending a non-empty suffix |
| Text.RStrip | flightgear_python/fg_if.py:306 | rstrip('/') gives a prefix with no trailing '/', and only '/' was removed |
| Text.RStripIdempotent | flightgear_python/fg_if.py:306 | stripping twice is stripping once |
| Text.JoinSplit | flightgear_python/fg_if.py:308 | joining the pieces of split("\r\n") with "\r\n" gives the text back |
| Text.SplitPiecesClean | flightgear_python/fg_if.py:308 | no piece of split("\r\n") contains "\r\n" |
| Props.TelnetStr | flightgear_python/fg_if.py:251-253 | the command line is the command plus two characters ending in CRLF |
| Props.TelnetStrInverse | flightgear_python/fg_if.py:251-253 | the command is the line minus its CRLF |
| Props.ConcatSnoc | flightgear_python/fg_if.py:263 | appending one more chunk appends it to the buffer |
| Props.ReplyEndsUnique | flightgear_python/fg_if.py:259-263 | the loop stops after exactly one number of chunks: the first prefix ending with "/> " |
| Props.ReplyOrNever | flightgear_python/fg_if.py:259-263 | a stream that reaches the prompt is not one that never does |
| Props.SplitPromptReply | flightgear_python/fg_if.py:261-263 | a prompt split across two chunks ends the reply after the second chunk |
| Props.Interpret | flightgear_python/fg_if.py:264-268 | a returned reply is a prefix of the buffer not starting with "-ERR"; the only error is FGCommunicationError |
| Props.InterpretFramed | flightgear_python/fg_if.py:264-268 | body + "\r\n/> " gives the body, or FGCommunicationError when it starts with "-ERR" |
| Props.InterpretBarePrompt | flightgear_python/fg_if.py:264 | a bare "/> " without CRLF is not stripped |
| Props.AnsweredFramed | flightgear_python/fg_if.py:255-269 | a first chunk ending in the prompt line is the whole reply and the rest stays queued |
| Props.AnsweredUnique | flightgear_python/fg_if.py:255-269 | the chunks determine the reply and what is left queued |
| Props.FramedAnswer | flightgear_python/fg_if.py:255-269 | a one-chunk framed line not starting with '-' answers with that line |
| Props.SkipSpaces | flightgear_python/fg_if.py:274 | `\s+` skips exactly the maximal run of whitespace |
| Props.FindValue | flightgear_python/fg_if.py:274 | finds the longest value length ≤ v that gives the line shape for key length k, or reports that none does |
| Props.FindKey | flightgear_python/fg_if.py:274 | the greedy choice among key lengths ≤ k: a shape, and every other shape is not after it |
| Props.Match | flightgear_python/fg_if.py:274-278 | no match iff no decomposition of the line has the shape; otherwise the match has the shape with the greedy (longest) key and value |
| Props.Groups | flightgear_python/fg_if.py:279-281 | the groups have the matched key and value lengths and a non-empty type |
| Props.ShapeOfLayout | flightgear_python/fg_if.py:274 | a line laid out as key, " = '", value, "' (", type, ")" has the shape |
| Props.LayoutMaximal | flightgear_python/fg_if.py:274 | with no later '=' and no later quote, no other decomposition is greedier |
| Props.MatchIsGreatest | flightgear_python/fg_if.py:274 | a greatest shape is the match |
| Props.RenderGroups | flightgear_python/fg_if.py:274-281 | a rendered line has the shape at its own key and value, with its own groups |
| Props.ExtractRender | flightgear_python/fg_if.py:274-281 | a rendered line whose value and type contain no '=' (nor a quote in the type) matches with its own key, value and type |
| Props.GreedyKey | flightgear_python/fg_if.py:274 | an ambiguous line is split at the last possible " = '": key "a = 'b", value "c" |
| Props.Convert | flightgear_python/fg_if.py:282-291 | fails with FGCommunicationError exactly when an int or double fails to convert; bool is "value non-empty"; string and unknown types give the string |
| Props.ExtractProp | flightgear_python/fg_if.py:272-292 | a line without the shape is FGCommunicationError; otherwise the result is the key group paired with the conversion of the value group by the type group, and it fails exactly when that conversion fails |
| Props.ValueOf | flightgear_python/fg_if.py:297-299 | a failed exchange fails get_prop with the same error; an unparsable reply is FGCommunicationError |
| Props.ValueOfRender | flightgear_python/fg_if.py:297-299 | get_prop of a rendered reply is the conversion of its value by its type |
| Props.GetPropReply | flightgear_python/fg_if.py:294-299 | for a server reply `key = 'value' (type)` plus prompt, get_prop consumes that chunk and returns Convert(type, value) |
| Props.PropsConnection.SendCmdGetResp | flightgear_python/fg_if.py:255-269 | sends cmd + CRLF, consumes chunks up to the first prompt, and returns what Interpret makes of them (NoPrompt if none comes) |
| Props.PropsConnection.Connect | flightgear_python/fg_if.py:242-249 | sends "cd /" and fails only if the exchange fails |
| Props.PropsConnection.GetProp | flightgear_python/fg_if.py:294-299 | sends "get prop" and returns ValueOf the answer |
| Props.PropsConnection.SetProp | flightgear_python/fg_if.py:301-303 | sends "set prop value"; the answer is ignored unless the exchange fails |
| PropsList.Ls | flightgear_python/fg_if.py:308 | the `ls` exchange of a path: its interpreted reply, or FGCommunicationError for a path the server does not have |
| PropsList.Lower | flightgear_python/fg_if.py:317-321 | None stays None, a number is decreased by one |
| PropsList.DirsOfLines | flightgear_python/fg_if.py:310 | a directory is listed iff some reply line ends in '/' and it is path + "/" + that line rstripped of '/' |
| PropsList.DirsOfAppend | flightgear_python/fg_if.py:310 | directories keep the order of the reply lines |
| PropsList.AddProps | flightgear_python/fg_if.py:328-332 | keys already present stay, every new key starts with path + "/", and the only error is FGCommunicationError |
| PropsList.MergeThenStore | flightgear_python/fg_if.py:324-332 | storing after a merge equals merging after the store |
| PropsList.AddPropsOk | flightgear_python/fg_if.py:328-332 | storing the lines succeeds exactly when every line containing '=' parses and converts |
| PropsList.AddPropsKeys | flightgear_python/fg_if.py:328-332 | the keys afterwards are the earlier keys plus path/key for each line containing '='; other lines add nothing |
| PropsList.AddPropsLastWins | flightgear_python/fg_if.py:328-332 | a key stored by a line holds that line's converted value, unless a later line stores it again |
| PropsList.AddPropsKept | flightgear_python/fg_if.py:328-332 | a key no line stores keeps its earlier value |
| PropsList.AddPropsOver | flightgear_python/fg_if.py:324-332 | a directory's own properties are written over whatever the recursion merged |
| PropsList.RemoveFirst | flightgear_python/fg_if.py:325 | when the value is present, list.remove takes exactly one occurrence out |
| PropsList.PendingStaysListed | flightgear_python/fg_if.py:325-326 | the directory being expanded is still in dir_list, so remove never misses, and the directories still to expand stay listed afterwards |
| PropsList.FirstIndex | flightgear_python/fg_if.py:325 | the index found holds the value, and no earlier entry does |
| PropsList.RemoveFirstAtFirst | flightgear_python/fg_if.py:325 | list.remove deletes the first occurrence and keeps the order of the rest |
| PropsList.ListOneLevel | flightgear_python/fg_if.py:305-339 | with a limit ≤ 1 (0 included) the result is the reply's '/' lines as directories and its own property lines |
| PropsList.ListOwnPropertiesLast | flightgear_python/fg_if.py:324-332 | the returned properties are some merge overwritten by the directory's own properties |
| PropsList.UnlimitedListLeavesNoDirectories | flightgear_python/fg_if.py:314-326 | with limit None a listing that finishes returns no directories |
| PropsList.UnlimitedExpandLeavesNoDirectories | flightgear_python/fg_if.py:315-326 | expanding every directory with limit None leaves none unexpanded |
| PropsList.ListStripsPath | flightgear_python/fg_if.py:306 | paths that differ only in trailing '/' list the same |
| PropsList.SlashEntry | flightgear_python/fg_if.py:310 | a reply line "/" names the directory itself |
| PropsList.SelfEntryHitsRecursionLimit | flightgear_python/fg_if.py:314-326 | a directory whose listing names itself recurses until the recursion limit with limit None |
| PropsList.ListProps | flightgear_python/fg_if.py:305-340 | the method returns exactly List(tree, path, limit) |
| PropsList.ExpandDirs | flightgear_python/fg_if.py:314-326 | the loop over a copy of dir_list computes Expand: remove each directory, merge its properties, append its directories |
| PropsList.AddOwnProps | flightgear_python/fg_if.py:328-332 | the loop over reply lines computes AddProps |
| RxLoop.Received | flightgear_python/fg_if.py:173 | recvfrom(1024) yields at most 1024 bytes, a prefix of the datagram, and all of a datagram that fits |
| RxLoop.FdmV24Tagged | flightgear_python/fg_if.py:219-220 | the v24 table is 408 bytes with the tag 24 |
| RxLoop.SelectLayout | flightgear_python/fg_if.py:219-226 | versions 24 and 25 select their table; any other is NotImplementedError |
| RxLoop.SelectedLayoutTagged | flightgear_python/fg_if.py:219-224 | the selected table carries the requested version tag, and has 408 or 552 bytes |
| RxLoop.ParseNew | flightgear_python/fg_if.py:174-177 | parsing fails iff construct fails; ConstError becomes FGCommunicationError |
| RxLoop.ParseOld | src/flightgear_python/fg_if.py:67-70 | parsing fails iff construct fails; ConstError becomes AssertionError |
| RxLoop.StepNewTagMismatch | flightgear_python/fg_if.py:173-177 | an FDM datagram with a wrong tag raises FGCommunicationError |
| RxLoop.StepOldTagMismatch | src/flightgear_python/fg_if.py:66-70 | the same datagram raises AssertionError in the older loop |
| RxLoop.StepShortDatagram | flightgear_python/fg_if.py:173-177 | a short FDM datagram raises StreamError, not FGCommunicationError |
| RxLoop.IdleStepIgnoresCallback | flightgear_python/fg_if.py:183-187 | when the flag is clear or nothing is pending, the callback does not affect the step |
| RxLoop.IdleStepNew | flightgear_python/fg_if.py:179-192 | an idle iteration builds the radian-corrected record unchanged and leaves the pipe as it was |
| RxLoop.BusyStepNew | flightgear_python/fg_if.py:183-192 | with the flag set and a message pending, what is sent is the build of the callback's record |
| RxLoop.NoTxSocketStep | flightgear_python/fg_if.py:191-194 | without a TX socket the current loop sends nothing; the older loop fails at sendto once it has built |
| RxLoop.IdleStepOldEchoes | src/flightgear_python/fg_if.py:63-80 | an idle older loop sends back the first 552 bytes of an FDM datagram unchanged |
| RxLoop.IdleStepNewEchoes | flightgear_python/fg_if.py:169-192 | the current loop does too when the radian correction leaves the record unchanged |
| RxLoop.LongDatagramCut | flightgear_python/fg_if.py:173 | bytes past the first 1024 never affect an iteration |
| RxLoop.CoalescingPipeCallsBack | flightgear_python/fg_if.py:183 | after parent_send the next iteration calls back; under the one-slot invariant it calls back iff the flag is set |
| RxLoop.OlderPipeStrandsSecondMessage | src/flightgear_python/fg_if.py:72-74 | with the older pipe, two sends then one child_recv leave a message pending that the next iteration does not pass on |
| RxLoop.Connection.RxProcess | flightgear_python/fg_if.py:169-194 | the error, the new pipe state and the datagrams sent are those of StepNew; a parse error leaves the pipe unchanged, and a build error leaves it as the callback step left it |
| RxLoop.Connection.ConnectTx | flightgear_python/fg_if.py:158-167 | from now on iterations send |
| RxLoop.FdmConnection | flightgear_python/fg_if.py:216-226 | FDMConnection(v) succeeds iff v is 24 or 25, with that version's table, a fresh empty pipe and no TX socket |
| RxLoop.LegacyConnection.RxProcess | src/flightgear_python/fg_if.py:63-80 | the error, the new pipe state and the datagrams sent are those of StepOld; a parse error leaves the pipe unchanged, and a build error or a missing TX socket leaves it as the callback step left it |
| RxLoop.LegacyConnection.ConnectTx | src/flightgear_python/fg_if.py:58-61 | from now on iterations can send |
| RxLoop.LegacyFdmConnection | src/flightgear_python/fg_if.py:90-99 | FDMConnection(v) of the older version succeeds iff v is 24 or 25 |

## Left out

- Floating-point fields are opaque IEEE bit patterns (4 or 8 bytes), never reals. The model says nothing about their numeric values.
- The radian correction (`offset_fg_radian`, `fix_fg_radian_parsing`, flightgear_python/fg_util.py) is an uninterpreted `Record -> Record` parameter of the current loop step. Its arithmetic is floating point.
- Sockets, processes and the endless `while True`: bind, connect, `recvfrom`/`sendto`, `mp.Process` start and terminate. One loop iteration is modelled. The received datagram is a parameter, the TX socket is a flag, and sent datagrams are appended to a log. Printing and `sys.stdout.flush` are left out.
- RxLoop.Connection.RxProcess: the callback's side effects on the EventPipe (normally a `child_recv`) are modelled as a new mailbox the callback returns. Callbacks that keep other state, or raise, are not modelled.
- FDM v24: fdm_v24.py is not part of this model. Its table is a stand-in whose only known facts are its tag 24 and its 408-byte size.
- RxLoop.SelectLayout, RxLoop.FdmConnection: the current `FDMConnection` wraps its table as `Struct(*[k / v for k, v in fdm_struct.items()])` (flightgear_python/fg_if.py:226). fdm_v25.py defines `fdm_struct` as a construct `Struct`, which has no `.items()`, so `FDMConnection(25)` as written raises AttributeError. The model, like tests/test_fdm_connection.py:16, takes versions 24 and 25 to succeed with the version's table.
- Construct's `Container` is a positional record (one value per field, in table order). Field names are kept in the layout, not in the record.
- The UTF-8 encode/decode of telnet text is the identity: text is a sequence of characters.
- Props.Match: Python's regex engine is replaced by a description of the line's shape. `\s` is Python's whitespace set. The rule that `$` also matches before a final newline is not modelled: a line must end with `)`.
- Props.Convert: Python's `int()` and `float()` parsing are parameters that may fail. A double is a real.
- Props.PropsConnection.SetProp: the value is already text. Python's `str(value)` for other types is not modelled.
- Props.PropsConnection.GetProp: the `isinstance(prop_str, str)` check is enforced by the types.
- Props.PropsConnection.SendCmdGetResp: the socket is a queue of received chunks, and the `buflen` chunk size is not modelled. If no prompt ever arrives, Python blocks forever, or loops forever on a closed socket; the model reports NoPrompt with the queue emptied.
- PropsList.List: the server is a map from path to the text of its `ls` reply, not a chunk stream. Python's recursion limit is the `fuel` parameter, reported as RecursionLimit. The `ls` text is interpreted as given, even when it does not end with the `/> ` prompt; the program would keep reading until the prompt arrives.
- The public `set`/`clear` aliases of EventPipe are not modelled: the mailbox is used only through its send, receive and poll methods.
- A `child_recv` or `parent_recv` on an empty pipe blocks in Python. Here it returns None and changes nothing.
- `deprecate_rename_wrapper` in flightgear_python/general_util.py is left out: it is reflection and warnings machinery.
- The connect/bind part of `connect_rx`, `connect_tx` and `PropsConnection.connect`, and the error raised when they fail, are left out: they are socket I/O.
- RxLoop.IdleStepOldEchoes, RxLoop.IdleStepNewEchoes, CodecLaws.EncodeDecode, FdmV25.FdmEncodeDecode, GuiV8.GuiEncodeDecode: the round trip, and so the idle loop's echo of an FDM datagram, treats every Float32 word as opaque bytes. The program builds Float32 through CPython's `struct` format 'f', which (before CPython 3.14) turns a signalling NaN into a quiet one: the word 7F 80 00 01 is built as 7F C0 00 01. For signalling-NaN Float32 words the byte-for-byte round trip and echo hold in the model only.
- Codec.EncodeWord: an int given for a padding (`Bytes(n)`) field is a FormatError here. construct 2.10 builds it through `integer2bytes` as an n-byte integer. The model only builds padding from bytes of the right length.
- PropsList.RemoveFirst: when the value is absent the model returns the list unchanged, where Python's `list.remove` raises ValueError. `list_props` never reaches that case: it only removes a directory it is expanding, which `PropsList.PendingStaysListed` and the loop invariant of `PropsList.ExpandDirs` prove is still listed.
