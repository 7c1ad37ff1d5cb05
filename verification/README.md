# Verified models of gltrace, WebTerminal and PNTMeshViewer

This project models three programs of the repository and proves what they are for.

**gltrace** records every GL and EGL call of a process into a trace file and replays such files. The recorder
(`iolib.c`, `gles.c`, `egl.c`) appends encoded fields to a file that grows in mapped chunks, under a recursive mutex
with a reentrance counter. The replayer (`retrace.c`) parses the file back; the layout of a `glDrawElements` record
depends on buffer bindings and enabled attributes, which recorder and replayer each keep for themselves.

- `Bytes`, `Wire`: the encodings of values and their readers.
- `TraceWriter`: the chunked writer, as a class over an array, refined to plain append.
- `VertexArrays`: the packing of client vertex arrays.
- `Calls`, `RoundTrip`: the records of all modelled calls, the decoder, and that one inverts the other. `Execution`: the
  call the replayer makes of a record is the call that was recorded. `FileFormat`: the numbers of the format.
- `DrawReplay`: which vertices and indices a replayed draw fetches.
- `Replay`, `Replayer`: the replay loop, as a function and as the loop that updates the replayer's variables.
  `ReplayLimits`: files on which it does not do what one expects.
- `Trace`: whole files of serial calls. `Interceptors`, `Recording`: the interceptors that write them, with their loops.
- `Interposer`: the threads, the lock and the shadow state, as a state machine over single steps; a schedule is any
  interleaving, with any nesting of calls. `Records`, `DrawReads`: when the log of a schedule is a trace. `ShadowOrders`:
  when recorder and replayer agree. `Shadows`, `SerialSchedules`: a discipline under which they do. `BindRaces`,
  `MisreadDraw`: schedules on which they do not.
- `ObjectMaps`, `EnumNames`: the fixed-size tables of `map.c` and the rotating string buffer of `enums.c`.

**WebTerminal** is a terminal emulator over a document tree.

- `EscapeParser`, `TerminalParser`: the incremental parser of `insertString`. `EscapeSequences`: what each sequence
  does. `OutputCuts`: output cut into calls.
- `Dom`: `delta2D` and the cursor cache. `CursorMotion`, `MoveTo`, `CursorCache`: `moveTo` on the tree.
- `Styles`, `Rendition`, `StyleContext`: style attributes, Select Graphic Rendition, `adjustStyle`.

**PNTMeshViewer** builds a triangle mesh over a grid: `GridMesh` (numbering and topology), `MeshBuilder` (the arrays).

Loops and updates of the source are `while`/`for` loops and class methods here, each proved against a function or a
predicate; the properties are then proved of those functions. C and Java `int` arithmetic is written out where it can
wrap. Times, thread identities, results of the original GL and EGL functions, client memory, the height function and
the normal of three points are parameters. Heap structures of the DOM are values: a position in the tree is the list of
siblings on both sides of it, at every level.

Some properties one would expect are false of the code. For each of these the model keeps the code as it is and states
when the property holds, exactly but for the end of `process`, where the condition is sufficient:

- The recorder packs vertices as if every draw were made of quads, so a replayed draw lacks the vertices whose numbers
  are not below `count/6*4`, for a single triangle all of them: `DrawReplay.ClientDrawReplayedExactly`,
  `DrawReplay.TriangleLost`.
- The log of concurrent calls is a trace of them exactly when every draw reads what it would read in the shadow state
  of the records before it (`DrawReads.LogIsTraceExactly`), and recorder and replayer agree exactly when the last
  changes made are the last ones logged (`ShadowOrders.OrdersAgreeExactly`). Three things break this. `glBindBuffer`
  assigns its shadow binding after the lock is released, so a draw of another thread can be logged before it
  (`BindRaces.DrawInTheWindow`, `MisreadDraw.DrawMisread`), and two binds can be assigned in another order than they
  are logged (`BindRaces.BindsCross`). And a call made from inside an original function changes the shadow state
  without being logged (`BindRaces.NestedBind`, `BindRaces.DrawAfterNestedBind`).
- The replayer exits on attribute lists of more than 31 pairs, which the recorder writes: `RoundTrip.ReadAttrsAt`,
  `Trace.TraceRoundTrip`.
- Pointers of a 4-byte recorder come back sign-extended: `Wire.PointerExact`.
- Block lengths above 0x7ffffffc move the reader backwards (`Wire.GetAdvances`), so `process` does not end on every file
  (`ReplayLimits.EndlessFile`). It ends on every file on which it gets to no such block: `Replay.LoopEnds`.
- `process(m)` then `process(n)` ends as `process(m + n)` on every trace (`Trace.TraceResumes`), but not on every file
  (`ReplayLimits.StoppedFile`): only if the first call did not stop on an opcode with input left
  (`Replay.ProcessResumes`).
- `moveTo` miscounts the fill when it appends lines: `CursorMotion.SeekLands`, `CursorMotion.FillMiscounted`.
- `adjustStyle` gives up an unstyled ancestor in place of a styled one: `StyleContext.AdjustsAlwaysExactly`,
  `StyleContext.UnstyledSpanGivenUp`.
- Control sequence parameters of 2^31 and more wrap: `EscapeParser.ParametersExact`.
- Where output is cut into calls matters when the column the loop goes on with is not the cursor's:
  `OutputCuts.CutsAgreeExactly`, `OutputCuts.CutsAgreeWhenFresh`, `OutputCuts.StaleColumnMatters`,
  `OutputCuts.FormFeedMatters`.

The comment on `delta2D` says that columns are returned as `columns<<1`; the code reads them back with a signed shift, so
only columns below 2^30 survive (`Dom.ColumnBoundExact`). The model follows the code.

## Model

| member | source | states |
|---|---|---|
| `Bytes.LeRoundTrip` | tools/gltrace/iolib.c:232-249 | a number of a given width survives being stored byte by byte, least significant first |
| `Bytes.LeByte` | tools/gltrace/iolib.c:232-249 | byte i of a stored number is the one with weight 256 to the i |
| `FileFormat.WordBytes` | tools/gltrace/iolib.c:176-183 | the four bytes of every int, negative ones in two's complement |
| `FileFormat.HeaderBytes` | tools/gltrace/iolib.c:69-73 | the twenty bytes at the start of a trace |
| `FileFormat.PrefixBytesAre` | tools/gltrace/iolib.c:160-174 | a thread prefix is the word 2 and the thread |
| `FileFormat.OptionalBytes` | tools/gltrace/iolib.c:185-203 | a null int and an int that equals 0xdeadbead take two words, any other int one |
| `FileFormat.Opcodes` | tools/gltrace/iolib.h:35-244 | the opcode numbers of the calls with a layout or effect of their own |
| `FileFormat.BindTargets` | tools/gltrace/gles.c:274-279 | target 0x8892 binds the array buffer, 0x8893 the element array buffer and others nothing, in recorder and replayer |
| `FileFormat.ListsEnd` | tools/gltrace/egl.c:216-221 | an attribute list is put pair by pair, key first, and ends with 0x3038 |
| `Wire.GetEnc` | tools/gltrace/iolib.c:335-443 | reading at any written field, of every kind, returns the value that was put and stops exactly at the end of its encoding, whatever bytes follow |
| `Wire.UniquelyDecodable` | tools/gltrace/iolib.c:176-314 | if two fields of one kind, with arbitrary suffixes, give the same bytes, then they read back the same, have the same encoding and the suffixes are equal |
| `Wire.GetOptInt` | tools/gltrace/iolib.c:353-367 | every optional int, also one equal to the escape word, comes back exactly |
| `Wire.GetStr` | tools/gltrace/iolib.c:411-421 | a string of every length comes back, and the cursor lands behind its padding |
| `Wire.GetBuf` | tools/gltrace/iolib.c:423-436 | a block comes back, an empty one as null, and the cursor lands behind its padding |
| `Wire.NullStringIsEmptyString` | tools/gltrace/iolib.c:270-292 | a null string and an empty string have the same encoding |
| `Wire.RoundUpExact` | tools/gltrace/iolib.c:411-436 | the reader rounds a length to where the writer stopped padding exactly for lengths up to 0x7ffffffc; for longer ones the rounded length is negative |
| `Wire.PointerExact` | tools/gltrace/iolib.c:402-409 | a pointer survives if and only if the recorder has 8-byte words or its sign bit is clear |
| `Wire.GetAdvances` | tools/gltrace/iolib.c:335-443 | on any bytes a getter moves the cursor backwards if and only if it accepts a block or string whose length cannot be rounded up in an int |
| `Wire.ShortIsReadable` | tools/gltrace/iolib.c:411-436 | a file of at most 0x7ffffffc bytes has no room for such a block |
| `TraceWriter.Writer.constructor` | tools/gltrace/iolib.c:51-68 | an empty trace: nothing written, no chunk mapped, reentrance 0 |
| `TraceWriter.Writer.Enlarge` | tools/gltrace/iolib.c:126-154 | a full chunk becomes part of the file and a new one is mapped behind it; what has been written is unchanged |
| `TraceWriter.Writer.CopyRun` | tools/gltrace/iolib.c:232-249 | the inner copy loop appends exactly the bytes given to it |
| `TraceWriter.Writer.Copy` | tools/gltrace/iolib.c:232-314 | bytes that cross any number of chunk ends are appended once and in order |
| `TraceWriter.Writer.PadToWord` | tools/gltrace/iolib.c:270-314 | as many zero bytes are appended as bring the file to a word boundary |
| `TraceWriter.Writer.Store` | tools/gltrace/iolib.c:176-183 | an aligned word never crosses a chunk end; it is appended and the cursor stays aligned |
| `TraceWriter.Writer.PutInt` | tools/gltrace/iolib.c:176-183 | appends the encoding of the int, or nothing inside a nested command |
| `TraceWriter.Writer.PutIntPtr` | tools/gltrace/iolib.c:185-202 | appends the encoding of the nullable int, or nothing inside a nested command |
| `TraceWriter.Writer.PutWide` | tools/gltrace/iolib.c:232-268 | appends the bytes of a 64-bit value or a pointer, or nothing inside a nested command |
| `TraceWriter.Writer.PutString` | tools/gltrace/iolib.c:270-292 | appends characters, terminator and padding, and stays aligned; a null string becomes four zero bytes |
| `TraceWriter.Writer.PutBytes` | tools/gltrace/iolib.c:294-314 | appends length, bytes and padding, and stays aligned |
| `TraceWriter.Writer.PutThread` | tools/gltrace/iolib.c:160-174 | a thread prefix is appended exactly when the thread is not that of the last record |
| `TraceWriter.Writer.PutCmd` | tools/gltrace/iolib.c:160-174 | only the outermost command appends its opcode, behind a thread prefix if the thread changed; reentrance counts up |
| `TraceWriter.Writer.PutTime` | tools/gltrace/iolib.c:316-329 | only the outermost command appends its times; reentrance counts down |
| `TraceWriter.Writer.PutAll` | tools/gltrace/iolib.c:176-314 | a sequence of puts appends the concatenation of the encodings |
| `TraceWriter.Writer.Fini` | tools/gltrace/iolib.c:110-120 | the file is what has been written, of length `fileOffset - (endPtr - curPtr)` |
| `TraceWriter.Record` | tools/gltrace/iolib.c:51-314 | for every chunk size that is a multiple of 4, the file is the plain concatenation of the encoded fields |
| `VertexArrays.GatherPreservesVertices` | tools/gltrace/gles.c:193-205 | vertex j of the packed bytes is vertex j of the strided array, for every base, stride and element size |
| `VertexArrays.CopiesFitExactly` | tools/gltrace/gles.c:183-191 | the bytes copied for every enabled attribute, `elemsz` in int arithmetic times the vertices, stay within `maxsz` if and only if that product is below 2^31 |
| `VertexArrays.CopyElement` | tools/gltrace/gles.c:200 | one element is copied behind what is already in the buffer |
| `VertexArrays.GatherAttrib` | tools/gltrace/gles.c:193-205 | the buffer holds, for every vertex j, at j times the element size, the element j strides behind the pointer, or j elements behind it when the stride is not positive |
| `VertexArrays.ElementBytes` | tools/gltrace/gles.c:66-82 | an element has size times one, two or four bytes, by its type |
| `VertexArrays.QuadVertices` | tools/gltrace/gles.c:135-165 | of 6 q + r indices, r below 6, the vertices packed are 4 q |
| `VertexArrays.LargestBlock` | tools/gltrace/gles.c:184-190 | the size found is the largest of the enabled attributes, in int arithmetic |
| `VertexArrays.PutVertexAttrib` | tools/gltrace/gles.c:180-207 | the blocks put are the packed arrays of the enabled attributes, in order |
| `RoundTrip.ReadKindsAt` | tools/gltrace/retrace.c:2486-3640 | reading a list of kinds where a list of fields was put gives those fields and ends behind them |
| `RoundTrip.ReadAttrsAt` | tools/gltrace/retrace.c:3437-3448 | an attribute list comes back if it has at most 31 pairs; with more the replayer exits |
| `RoundTrip.ReadPartsAt` | tools/gltrace/retrace.c:3128-3147 | the strings of glShaderSource come back, with and without a length array |
| `RoundTrip.CountedAt` | tools/gltrace/gles.c:731-750 | a counted list of names comes back, also for zero and negative counts |
| `RoundTrip.UniformAt` | tools/gltrace/gles.c:1209-1234 | a glGetActiveUniform record comes back, its optional results included |
| `RoundTrip.ChooseConfigAt` | tools/gltrace/egl.c:150-182 | an eglChooseConfig record comes back if its attribute list fits; else the replayer exits |
| `RoundTrip.CreateAt` | tools/gltrace/egl.c:207-233 | records of eglCreateWindowSurface and eglCreateContext come back if the attribute list fits; else the replayer exits |
| `RoundTrip.DrawLayout` | tools/gltrace/retrace.c:2802-2817 | with agreeing shadow state the replayer expects exactly the fields a glDrawElements record has |
| `RoundTrip.DecodeCall` | tools/gltrace/retrace.c:2486-3640 | under agreeing shadow state, the record of every modelled call decodes to the fields that were put and ends at its last byte, or the replayer exits, exactly when an attribute list is too long |
| `RoundTrip.AgreementKept` | tools/gltrace/retrace.c:2513-2525 | bindings, enabled flags and attribute formats of recorder and replayer agree after every call if they agreed before |
| `RoundTrip.BlockOfAttrib` | tools/gltrace/retrace.c:2808-2814 | the block the replayer reads for an enabled attribute is the one packed for that attribute |
| `Execution.ExecutesWhatWasCalled` | tools/gltrace/retrace.c:2486-3640 | for every modelled call: the call the replayer makes of the record, taking each argument and result from the value its case takes it from, is the call that was made, argument by argument, up to null strings, empty blocks and 4-byte pointers; client arrays and indices are given byte by byte |
| `Execution.ArrayShown` | tools/gltrace/gles.c:193-205 | the packed array of an attribute, byte by byte, is client memory at the strides of the attribute |
| `DrawReplay.BlockThere` | tools/gltrace/retrace.c:2806-2814 | the replayer reads, for each enabled attribute, the block packed for it, or null when no vertex was packed |
| `DrawReplay.VertexReplayedExactly` | tools/gltrace/retrace.c:302-308 | the replayed draw fetches for vertex v, with its own format and stride 0, the bytes v strides (or elements, without a stride) behind the client pointer if and only if v is below four for every six indices |
| `DrawReplay.DrawReplayedExactly` | tools/gltrace/gles.c:135-207 | a draw with any indices fetches the original bytes when replayed if and only if it fetches nothing or all its indices are below four for every six of them |
| `DrawReplay.TriangleLost` | tools/gltrace/gles.c:135-165 | of a draw with three indices no vertex is packed, and the replayer gets a null pointer for every array |
| `DrawReplay.IndexBytes` | tools/gltrace/gles.c:966-975 | an index is one, two or four bytes of client memory, least significant first, by its type |
| `DrawReplay.IndexReplayedExactly` | tools/gltrace/gles.c:966-975 | an index in client memory is replayed if and only if the index pointer is not null and the index lies within the bytes recorded, whose number is computed in an int |
| `DrawReplay.ClientDrawReplayedExactly` | tools/gltrace/gles.c:962-987 | a draw with indices and arrays in client memory is replayed with all its indices and vertices if and only if the indices were recorded and are all below `count/6*4`, or no array is fetched from |
| `Replay.StepAdvances` | tools/gltrace/retrace.c:2473-2484 | each iteration that reads no block that moves the reader backwards returns, exits or consumes at least four bytes |
| `Replay.StepOutcome` | tools/gltrace/retrace.c:2473-3656 | on any file, an iteration that stops consumes the opcode it stops on unless the input is exhausted, and one that goes on logs its record |
| `Replay.LoopAdvances` | tools/gltrace/retrace.c:2468-2484 | a run that gets to no such block never moves the cursor back, consumes input if there is a word left, and plays at most the requested frames |
| `Replay.LoopEnds` | tools/gltrace/retrace.c:2468-2484 | on every file on which it gets to no such block, the loop ends within one iteration for every four bytes |
| `Replay.ReadableLoop` | tools/gltrace/iolib.c:411-443 | on a file without any such block, at positions the reader reaches or not, it gets to none |
| `Replay.ProcessResumes` | tools/gltrace/retrace.c:3634-3656 | on every file, whatever its contents: after playing m frames, playing n ends as playing m + n from the start does, in cursor, shadow state, log and frame count, if and only if the first run played all its frames or ran out of input |
| `Replay.ExitStays` | tools/gltrace/retrace.c:2468-3656 | if playing m frames exits, so does playing more |
| `Replay.LogStays` | tools/gltrace/retrace.c:2473-3656 | what the replay loop has logged, it never takes back |
| `Replay.UnknownResumes` | tools/gltrace/retrace.c:3634-3640 | at an opcode the replayer does not know, with input left, playing m frames and then n never ends as playing m + n |
| `ReplayLimits.CircleIsEndless` | tools/gltrace/iolib.c:423-443 | from two glBufferData records with certain block lengths, the second of which leads back to the first, the loop never ends |
| `ReplayLimits.EndlessFile` | tools/gltrace/retrace.c:2468-2484 | there is a file that opens and on which no call of `process` for any frames ends |
| `ReplayLimits.StoppedFile` | tools/gltrace/retrace.c:3634-3640 | there is a file that opens and on which playing m frames and then n does not end as playing m + n, for all positive m and n |
| `Replayer.Player.constructor` | tools/gltrace/retrace.c:2468-2475 | start-up: cursor behind the header, nothing bound or enabled |
| `Replayer.Player.FetchAll` | tools/gltrace/retrace.c:2486-3640 | the reads of a case give what the decoder function reads |
| `Replayer.Player.FetchAttrs` | tools/gltrace/retrace.c:3443-3448 | the attribute loop reads the list, or exits at its 64th int |
| `Replayer.Player.FetchParts` | tools/gltrace/retrace.c:3128-3147 | the loop over the strings of glShaderSource reads them all |
| `Replayer.Player.EnabledAttribs` | tools/gltrace/retrace.c:2808-2814 | the loop finds as many blocks as attributes are enabled |
| `Replayer.Player.FetchBody` | tools/gltrace/retrace.c:2486-3640 | the case of an opcode reads what the decoder function says, under the current bindings and flags |
| `Replayer.Player.Update` | tools/gltrace/retrace.c:2513-2525 | the shadow state after a record is the specified one, and nothing else changes |
| `Replayer.Player.PlayRecord` | tools/gltrace/retrace.c:2486-3656 | one iteration behind the prefix does what the step function says |
| `Replayer.Player.Process` | tools/gltrace/retrace.c:2468-3656 | on every file on which the loop ends, the loop over the variables of the replayer ends as the function says, for any number of frames |
| `Trace.StepItem` | tools/gltrace/retrace.c:2473-3656 | one iteration at a written record plays exactly that record and restores agreement; it exits exactly on a long attribute list |
| `Trace.PlaysInStep` | tools/gltrace/retrace.c:2473-3656 | after k iterations exactly the first k calls have been played, and replayer and recorder agree as the recorder was before call k |
| `Trace.PlaysToEnd` | tools/gltrace/retrace.c:2468-3656 | a whole file of any length is played to its last byte if and only if all attribute lists fit; otherwise the replayer exits |
| `Trace.PlaysFrames` | tools/gltrace/retrace.c:2473-3656 | on a trace, playing any number of frames ends, having played that many or at the last byte |
| `Trace.PerformedIsCalled` | tools/gltrace/retrace.c:2486-3640 | what is executed for the records of a trace is what was called, each call in the shadow state of those before it |
| `Trace.OpensHeader` | tools/gltrace/iolib.c:69-108 | the reader accepts the header the writer makes and finds its word size |
| `Trace.TraceRoundTrip` | tools/gltrace/iolib.c:160-443 | for every serial sequence of calls by any threads and a file of any length: the replayer makes the calls that were made, each with its arguments, results, times and thread, counts the buffer swaps among them and ends at the last byte in agreeing state, if and only if all attribute lists fit; otherwise it exits |
| `Trace.TraceResumes` | tools/gltrace/retrace.c:2473-3656 | on every trace of supported calls, m frames and then n end in the same cursor, shadow state, log and frame count as m + n, for all positive m and n |
| `Trace.TraceProcessResumes` | tools/gltrace/retrace.c:2468-3656 | the same without a bound on the iterations: m frames and then n end as m + n, for all positive m and n |
| `Interceptors.PutArrays` | tools/gltrace/gles.c:180-207 | the loop over the packed arrays appends a block for each enabled attribute |
| `Interceptors.PutDrawHead` | tools/gltrace/gles.c:966-975 | mode, count, type and indices of a draw are appended |
| `Interceptors.PutDraw` | tools/gltrace/gles.c:962-987 | the interceptor of glDrawElements appends the fields the shadow state calls for |
| `Interceptors.PutCounted` | tools/gltrace/gles.c:730-745 | count and names, put in a loop, are the fields of the call |
| `Interceptors.PutParts` | tools/gltrace/gles.c:1711-1721 | the loop over the strings of glShaderSource appends a length and a block or string for each |
| `Interceptors.PutAttrs` | tools/gltrace/egl.c:216-221 | the loop over an attribute list appends its pairs and EGL_NONE |
| `Interceptors.PutChooseConfig` | tools/gltrace/egl.c:157-176 | display, attribute list, sizes, configurations and result are appended in file order |
| `Interceptors.PutCreate` | tools/gltrace/egl.c:212-227 | three handles, the attribute list and the result are appended |
| `Interceptors.PutCall` | tools/gltrace/gles.c:1704-1730 | the puts of every modelled call append its fields in the current shadow state |
| `Recording.Intercept` | tools/gltrace/iolib.c:160-329 | `putCmd`, the puts of a call and `putTime` append one record, with a thread prefix exactly if the thread changed, and leave reentrance at 0 |
| `Recording.RecordTrace` | tools/gltrace/iolib.c:51-329 | running the interceptors of any serial calls one after the other writes the trace file of the calls, for every chunk size |
| `Interposer.ApplyKeepsInv` | tools/gltrace/iolib.c:156-174 | every single step of every thread keeps the lock, counter and log invariants |
| `Interposer.EverySchedule` | tools/gltrace/iolib.c:156-329 | for every interleaving and nesting: reentrance is the number of commands the lock owner is inside of, the log is whole records and at most one open one, and a thread prefix precedes a record exactly when the thread changes |
| `Interposer.NestedIsSilent` | tools/gltrace/iolib.c:160-183 | no step of a nested command changes the log |
| `Shadows.CalmSchedule` | tools/gltrace/gles.c:261-283 | over every schedule in which nested calls do not change the shadow state and no bind is logged while another is unapplied, the state a replayer of the log has is the recorder's plus the one bind that may be unapplied |
| `Shadows.AgreementExactly` | tools/gltrace/gles.c:261-283 | between records of such a schedule, recorder and replayer agree if and only if no bind is unapplied or the unapplied one changes nothing |
| `ShadowOrders.ChangesMade` | tools/gltrace/gles.c:261-283 | over every schedule, with any interleaving and any nesting, the shadow state of the recorder is that of the changes made, nested ones included, in the order in which they were made |
| `ShadowOrders.LastDecides` | tools/gltrace/gles.c:261-283 | a list of changes leaves, for each binding, flag and format, what the last change to it set |
| `ShadowOrders.OrdersAgreeExactly` | tools/gltrace/gles.c:261-283 | over every schedule: recorder and replayer have the same bindings if and only if for both targets the bind assigned last and the bind logged last bind the same buffer, and the same attributes if and only if for each the last enabling and format set are the last ones logged |
| `Records.ScriptWrites` | tools/gltrace/gles.c:962-987 | in any shadow state, the actions of an interceptor write the fields its call has in that state, and the times |
| `Records.ActExactly` | tools/gltrace/gles.c:962-987 | a put keeps an open record completable to its call's fields in the replayer's state if and only if it was so and the put writes what it writes in that state |
| `Records.LogIsTrace` | tools/gltrace/iolib.c:160-174 | records that each hold the fields of their call in the state of the records before are the serial encoding of their calls |
| `Records.TraceIsGood` | tools/gltrace/iolib.c:160-174 | conversely, if the records read as that encoding, each of them holds those fields |
| `DrawReads.ApplyReads` | tools/gltrace/gles.c:962-987 | every single step of every thread keeps the log as a replayer expects it if and only if it was so and the step reads as logged |
| `DrawReads.LogIsTraceExactly` | tools/gltrace/gles.c:962-987 | the log of any schedule, whatever the interleaving and nesting, is the serial encoding of its outermost calls in record order if and only if every draw among them read what it would have read in the shadow state of the records before it |
| `DrawReads.ScheduleReplays` | tools/gltrace/retrace.c:2468-3656 | end to end: every schedule whose draws read so leaves a file that replays exactly the outermost calls in record order, if and only if their attribute lists fit |
| `SerialSchedules.SerialSchedule` | tools/gltrace/gles.c:261-283 | every draw reads so in a schedule in which nested calls do not change the shadow state, no bind is logged while another is unapplied and no draw is opened while a bind is |
| `SerialSchedules.SerialScheduleReplays` | tools/gltrace/gles.c:962-987 | end to end: every such schedule leaves a file that replays exactly the outermost calls in record order, if and only if their attribute lists fit |
| `ShadowOrders.QuietSchedule` | tools/gltrace/gles.c:2225-2250 | over every schedule without state changes in nested calls, the attribute table stays in step with the log |
| `ShadowOrders.QuietAgreesExactly` | tools/gltrace/gles.c:261-283 | between records of such a schedule, recorder and replayer agree if and only if their bindings do |
| `BindRaces.BindsCross` | tools/gltrace/gles.c:261-283 | a schedule of two threads after which nothing is outstanding and recorder and replayer disagree |
| `BindRaces.LayoutAgreesExactly` | tools/gltrace/gles.c:962-987 | a draw has the layout a replayer expects if and only if both or neither bind an index buffer and the block counts are equal |
| `MisreadDraw.DrawMisread` | tools/gltrace/gles.c:261-283 | a schedule of two threads, run to its end, whose calls are all recordable and fit, and whose file does not play back as those calls |
| `MisreadDraw.StepMisreads` | tools/gltrace/retrace.c:2802-2817 | at the record of that draw, a replayer in step with the log takes the index length and half of a time stamp for the index pointer |
| `BindRaces.DrawAgainstLog` | tools/gltrace/gles.c:962-987 | whenever recorder and replayer disagree on whether an index buffer is bound, any draw logged then makes the log other than the encoding of its calls |
| `BindRaces.DrawInTheWindow` | tools/gltrace/gles.c:261-283 | any draw logged between a bind's unlock and its assignment makes the log other than the encoding of its calls, although both agree again at the end |
| `BindRaces.NestedBind` | tools/gltrace/iolib.c:160-174 | a schedule of one thread that binds an index buffer from inside the original glFinish: at the end nothing is outstanding, recorder and replayer disagree, and no draw has the layout a replayer expects |
| `BindRaces.DrawAfterNestedBind` | tools/gltrace/iolib.c:160-174 | any draw that follows makes the log other than the encoding of its calls |
| `ObjectMaps.ContentsSize` | tools/gltrace/map.c:51-69 | distinct keys in a prefix: a map has as many pairs as occupied slots, and is full exactly when no slot is free |
| `ObjectMaps.WritePuts` | tools/gltrace/map.c:51-69 | writing to the first slot that is free or has the key sets exactly that key, and a null key sets nothing |
| `ObjectMaps.WritePacks` | tools/gltrace/map.c:51-69 | keys stay distinct and in a prefix |
| `ObjectMaps.Maps.constructor` | tools/gltrace/map.c:38-39 | no maps |
| `ObjectMaps.Maps.CreateMap` | tools/gltrace/map.c:41-49 | a new empty map, while there are fewer than 16; no other map changes |
| `ObjectMaps.Maps.FindSlot` | tools/gltrace/map.c:56-68 | finds the first slot that is free or has the key, or says that there is none |
| `ObjectMaps.Maps.PutMap` | tools/gltrace/map.c:51-69 | the pair is put into that map and no other, unless the map is full of other keys, which is fatal |
| `ObjectMaps.Maps.GetMap` | tools/gltrace/map.c:71-85 | the value put last under the key, or null |
| `EnumNames.RunLaid` | tools/gltrace/enums.c:547-554 | the layout of the buffer that every run keeps: one lap in order, and the one before it behind |
| `EnumNames.HexStandsFor` | tools/gltrace/enums.c:161-168 | the digits of a made-up name stand for the value, without leading zeros |
| `EnumNames.LastNinetyOne` | tools/gltrace/enums.c:547-554 | after every run the last 91 strings all read as they did when given out |
| `EnumNames.NotNinetyTwo` | tools/gltrace/enums.c:547-554 | 91 is exact: a run after which the 92nd last string is overwritten |
| `EnumNames.Names.Print` | tools/gltrace/enums.c:552 | the string and its terminator are written at the place, and nothing else |
| `EnumNames.Names.Fallback` | tools/gltrace/enums.c:547-554 | the next string goes where the run says; the last 91 read right |
| `OutputCuts.InsertStringIsCharRun` | apps/experiments/WebTerminal/src/webterminal/WebTerminal.java:1167-1341 | one call has the effect, end columns included, of feeding its characters one by one to a machine that neither batches text nor fuses CR LF, given only that the cached column after a fused CR LF is as good as 0 |
| `OutputCuts.SplittingDoesNotMatter` | apps/experiments/WebTerminal/src/webterminal/WebTerminal.java:1167-1376 | where the running column tracks the cursor, output cut into any number of calls gives the same actions, end columns of texts included, and the same parser state as one call, up to merging text and expanding a fused CR LF |
| `OutputCuts.CutsAgreeExactly` | apps/experiments/WebTerminal/src/webterminal/WebTerminal.java:1167-1376 | all cuts of all output, and all cuts of all output without form feeds, agree, from every parser state and history, if and only if after every such character, and after a fused CR LF, the running column is one that no text can tell from the cursor column |
| `OutputCuts.CutsAgreeWhenFresh` | apps/experiments/WebTerminal/src/webterminal/WebTerminal.java:1273-1376 | on a screen that positions the cursor as expected: all cuts of output without form feeds agree if and only if, after every LF, BS and TAB, cached and cursor column are equal, or both beyond the wrap width, or, when wrapping is off, each 0 or beyond it |
| `OutputCuts.StaleColumnMatters` | apps/experiments/WebTerminal/src/webterminal/WebTerminal.java:1273-1292 | a line feed that leaves the cached column at -1 makes some output depend on how it is cut, whether lines wrap or not |
| `OutputCuts.FormFeedMatters` | apps/experiments/WebTerminal/src/webterminal/WebTerminal.java:1320-1331 | on every screen some output with a form feed depends on how it is cut |
| `OutputCuts.ScreensExist` | apps/experiments/WebTerminal/src/webterminal/WebTerminal.java:1343-1376 | for every wrap width there is a screen that positions the cursor as expected and on which all cuts of output without form feeds agree |
| `EscapeParser.ParametersExact` | apps/experiments/WebTerminal/src/webterminal/WebTerminal.java:1202-1227 | the stored parameters and the current one are the decimal values between the semicolons, empty ones -1, if and only if all values are below 2^31 |
| `EscapeParser.ControlSequenceDispatch` | apps/experiments/WebTerminal/src/webterminal/WebTerminal.java:1202-1227 | a complete control sequence dispatches exactly one action, with the values of its parameters |
| `EscapeSequences.TwoCharacters` | apps/experiments/WebTerminal/src/webterminal/WebTerminal.java:1175-1201 | ESC 7 saves the cursor, ESC 8 restores it, ESC M is a reverse index; ESC and any other character but a bracket does nothing |
| `EscapeSequences.ControlSequence` | apps/experiments/WebTerminal/src/webterminal/WebTerminal.java:1202-1227 | ESC [ parameters and a final character dispatch one action with the decimal parameters, in one call or in many |
| `EscapeSequences.PrivateSequence` | apps/experiments/WebTerminal/src/webterminal/WebTerminal.java:1202-1227 | ESC [ ? parameters and a final character dispatch one private action with the decimal parameters |
| `EscapeSequences.SystemCommand` | apps/experiments/WebTerminal/src/webterminal/WebTerminal.java:1229-1257 | ESC ] number ; text, ended by BEL or NUL, dispatches the command with that number and text |
| `EscapeSequences.DroppedCommand` | apps/experiments/WebTerminal/src/webterminal/WebTerminal.java:1229-1244 | ESC ] number and anything but a digit or a semicolon does nothing |
| `EscapeSequences.ControlCharacter` | apps/experiments/WebTerminal/src/webterminal/WebTerminal.java:1258-1319 | the five control characters, by their codes, each have their one action |
| `EscapeSequences.PrintedCharacter` | apps/experiments/WebTerminal/src/webterminal/WebTerminal.java:1320-1331 | any other character is inserted at the cursor and ends one column further (a zero width space in the same), behind a wrap break exactly when it would end beyond the wrap width and lines wrap |
| `EscapeParser.NextStop` | apps/experiments/WebTerminal/src/webterminal/WebTerminal.java:1150-1153 | the next tab stop is the first multiple of eight to the right |
| `TerminalParser.Terminal.constructor` | apps/experiments/WebTerminal/src/webterminal/WebTerminal.java:1167-1173 | an idle parser |
| `TerminalParser.Terminal.NextParameter` | apps/experiments/WebTerminal/src/webterminal/WebTerminal.java:1208-1217 | the array grows as needed and is never indexed out of range; the parameter is kept |
| `TerminalParser.Terminal.Digit` | apps/experiments/WebTerminal/src/webterminal/WebTerminal.java:1204-1207 | a digit extends the current parameter, in int arithmetic |
| `TerminalParser.Terminal.Escape` | apps/experiments/WebTerminal/src/webterminal/WebTerminal.java:1176-1257 | a character inside an escape sequence has its specified effect |
| `TerminalParser.Terminal.Control` | apps/experiments/WebTerminal/src/webterminal/WebTerminal.java:1258-1332 | a character at rest has its specified effect, batching and CR LF fusing included |
| `TerminalParser.Terminal.InsertString` | apps/experiments/WebTerminal/src/webterminal/WebTerminal.java:1167-1341 | the loop computes the specified parser state and actions |
| `Dom.Delta2DIsFold` | apps/experiments/WebTerminal/src/webterminal/WebTerminal.java:1836-1885 | the early-exit recursion on packed longs is the fold of line and column over the flattened document in front of the stop node; its low bit is set if and only if that node is there |
| `Dom.TextFillsLines` | apps/experiments/WebTerminal/src/webterminal/WebTerminal.java:1836-1885 | text without line ends fills lines of the given width, counted on from where it starts |
| `Dom.SpecialCharacters` | apps/experiments/WebTerminal/src/webterminal/WebTerminal.java:1836-1885 | line ends, CR LF as one, tabs and zero width spaces each move the position as stated |
| `Dom.ElementLines` | apps/experiments/WebTerminal/src/webterminal/WebTerminal.java:1836-1885 | a break starts a new line, a span ends where its contents end, a block at the start of the next line |
| `Dom.ColumnBoundExact` | apps/experiments/WebTerminal/src/webterminal/WebTerminal.java:1849-1866 | a column below 2^31 is unpacked exactly if and only if it is below 2^30 |
| `Dom.CacheUnpacks` | apps/experiments/WebTerminal/src/webterminal/WebTerminal.java:183-187 | `updateCursorCache` unpacks lines below 2^31 and columns below 2^30 |
| `Dom.CursorCacheExact` | apps/experiments/WebTerminal/src/webterminal/WebTerminal.java:183-187 | the cache is the line and column at which a reader arrives at the output position |
| `Dom.ComputeDelta2D` | apps/experiments/WebTerminal/src/webterminal/WebTerminal.java:1840-1885 | the recursion with its loops computes the specified value |
| `CursorMotion.SeekLands` | apps/experiments/WebTerminal/src/webterminal/WebTerminal.java:1635-1760 | the walk lands on the goal if and only if the goal line exists, or the goal column is 0, or the last line is empty |
| `CursorMotion.FillMiscounted` | apps/experiments/WebTerminal/src/webterminal/WebTerminal.java:1742-1759 | one character and the goal at line 1, column 1: no blank is added |
| `CursorMotion.SeekOnlyPads` | apps/experiments/WebTerminal/src/webterminal/WebTerminal.java:1635-1760 | all characters and tags keep their order; blanks are added only at the end of a line, line ends only at the end of the document |
| `CursorMotion.SeekFromHome` | apps/experiments/WebTerminal/src/webterminal/WebTerminal.java:1601-1616 | a walk from a cursor not beyond the goal gives the document and text in front of the cursor of a walk from home, and the very same place if and only if the cursor is not at the goal or no tag is right in front of it |
| `MoveTo.CloseGlyphs` | apps/experiments/WebTerminal/src/webterminal/WebTerminal.java:1611-1633 | restarting from home neither loses nor reorders anything |
| `MoveTo.WalkText` | apps/experiments/WebTerminal/src/webterminal/WebTerminal.java:1671-1704 | the loop over a text node makes the steps of the walk, pads in front of a line end, and never stops where it started |
| `MoveTo.Screen.MergeText` | apps/experiments/WebTerminal/src/webterminal/WebTerminal.java:1660-1670 | adjacent text nodes are merged without changing what is in front of the cursor |
| `MoveTo.Screen.VisitText` | apps/experiments/WebTerminal/src/webterminal/WebTerminal.java:1659-1705 | a text node is walked over and split where the goal is reached |
| `MoveTo.Screen.Climb` | apps/experiments/WebTerminal/src/webterminal/WebTerminal.java:1738-1772 | leaving spans moves the cursor over ends of spans only, up to a next sibling or the home |
| `MoveTo.Screen.PadEnd` | apps/experiments/WebTerminal/src/webterminal/WebTerminal.java:1742-1759 | at the end of the document the missing lines, then the counted columns, are added |
| `MoveTo.Screen.VisitBreak` | apps/experiments/WebTerminal/src/webterminal/WebTerminal.java:1640-1658 | a break on the goal line stops the walk after padding in front of it, any other is passed |
| `MoveTo.Screen.VisitSpan` | apps/experiments/WebTerminal/src/webterminal/WebTerminal.java:1709-1730 | a span is entered, or passed when it is empty, as the walk passes its tags |
| `MoveTo.OutOfEndedSpans` | apps/experiments/WebTerminal/src/webterminal/WebTerminal.java:1738-1772 | without empty text nodes, a cursor with a sibling behind it is out of all spans that end there |
| `MoveTo.Screen.Visit` | apps/experiments/WebTerminal/src/webterminal/WebTerminal.java:1636-1774 | each iteration of the main loop makes steps of the walk and progress, adds no empty text node, and ends with a sibling behind the cursor or at the home |
| `MoveTo.Screen.Move` | apps/experiments/WebTerminal/src/webterminal/WebTerminal.java:1635-1792 | the main loop terminates, carries out the walk up to ends of spans, and caches the goal |
| `MoveTo.Screen.MoveTo` | apps/experiments/WebTerminal/src/webterminal/WebTerminal.java:1593-1792 | a cursor at the goal stays; otherwise, from the cache or from home, document and insertion point are those of a walk from home moved out of the spans that end there (exactly, without empty text nodes, of which none is ever added); the new cache is right if and only if the goal was reachable |
| `CursorCache.CacheAgrees` | apps/experiments/WebTerminal/src/webterminal/WebTerminal.java:183-187 | what `updateCursorCache` stores is what `moveTo` relies on: the position after everything in front of the input line |
| `Styles.JoinExact` | apps/experiments/WebTerminal/src/webterminal/WebTerminal.java:804-813 | declarations joined into an attribute and parsed again come back if and only if all are trimmed, non-empty and free of semicolons |
| `Styles.KeptProvide` | apps/experiments/WebTerminal/src/webterminal/WebTerminal.java:759-799 | the ancestors kept declare exactly the kept part of the wanted list |
| `Styles.KeptAll` | apps/experiments/WebTerminal/src/webterminal/WebTerminal.java:759-799 | no ancestor is given up that would have fitted |
| `StyleContext.SplitKeepsLeaves` | apps/experiments/WebTerminal/src/webterminal/WebTerminal.java:828-853 | splitting a span around the input line leaves every leaf its place and its context |
| `StyleContext.NothingLeftOver` | apps/experiments/WebTerminal/src/webterminal/WebTerminal.java:800-803 | no unfit style stays behind if the ancestors given up are all styled, and only then when every style attribute declares something |
| `StyleContext.AdjustsAlwaysExactly` | apps/experiments/WebTerminal/src/webterminal/WebTerminal.java:741-822 | where every style attribute declares something: every clean list of styles is obtained if and only if no unstyled ancestor is inside a styled one |
| `StyleContext.AdjustmentMakesUp` | apps/experiments/WebTerminal/src/webterminal/WebTerminal.java:741-822 | two positions with different ancestors of that kind have the same style list after the adjustment |
| `StyleContext.UnstyledSpanGivenUp` | apps/experiments/WebTerminal/src/webterminal/WebTerminal.java:800-803 | an unstyled span in a red one: asking for no style leaves the text red |
| `StyleContext.MatchDecls` | apps/experiments/WebTerminal/src/webterminal/WebTerminal.java:771-794 | the loop over one attribute counts its declarations if they continue the wanted list, else gives -1 |
| `StyleContext.StyledScreen.PopStyle` | apps/experiments/WebTerminal/src/webterminal/WebTerminal.java:828-853 | the input line leaves its parent; every leaf keeps its place and its context |
| `StyleContext.StyledScreen.ParentStyles` | apps/experiments/WebTerminal/src/webterminal/WebTerminal.java:744-753 | the style attributes of the ancestors, innermost first |
| `StyleContext.StyledScreen.ComparePath` | apps/experiments/WebTerminal/src/webterminal/WebTerminal.java:759-800 | the comparison finds the specified numbers to keep and to pop |
| `StyleContext.StyledScreen.JoinRest` | apps/experiments/WebTerminal/src/webterminal/WebTerminal.java:807-811 | the remaining declarations are joined with semicolons |
| `StyleContext.StyledScreen.AdjustStyle` | apps/experiments/WebTerminal/src/webterminal/WebTerminal.java:741-822 | every leaf keeps its place and its effective attributes; the style list along the ancestors is `currentStyles` if and only if the condition above holds |
| `Rendition.PushSets` | apps/experiments/WebTerminal/src/webterminal/WebTerminal.java:719-731 | removing a property's declarations and adding one sets that property and no other, in a list that declares each property once |
| `Rendition.ListsClean` | apps/experiments/WebTerminal/src/webterminal/WebTerminal.java:569-619 | the style lists that parameters produce are carried faithfully by attributes |
| `StyleContext.StyledScreen.PushSimpleStyle` | apps/experiments/WebTerminal/src/webterminal/WebTerminal.java:719-731 | the list declares the record with that property set |
| `StyleContext.StyledScreen.SelectOne` | apps/experiments/WebTerminal/src/webterminal/WebTerminal.java:573-618 | after one parameter the style list declares each of the four properties as that parameter says, or as before, by name and value, and nothing twice |
| `Rendition.ParameterEffect` | apps/experiments/WebTerminal/src/webterminal/WebTerminal.java:573-618 | what each parameter makes of weight, decoration, colour and background, written out |
| `Rendition.LastDecides` | apps/experiments/WebTerminal/src/webterminal/WebTerminal.java:569-621 | after any parameters each property is as the last parameter that decides it says, whatever was selected before, and as it was without one |
| `StyleContext.StyledScreen.SelectRendition` | apps/experiments/WebTerminal/src/webterminal/WebTerminal.java:569-621 | the final style list declares each property with the value of the last parameter that decides it, by name, and nothing else |
| `StyleContext.StyledScreen.SelectAndAdjust` | apps/experiments/WebTerminal/src/webterminal/WebTerminal.java:741-822 | from any look, after any parameters, the input line stands in a context that declares exactly what is selected, no leaf changes its own, and the conditions for doing so again hold |
| `GridMesh.EdgesOnce` | apps/toys/FX8-3DFeatures/src/fx83dfeatures/PNTMeshViewer.java:195-268 | for all grid sizes, every directed edge of the face array occurs in exactly one place |
| `GridMesh.ReverseOccurs` | apps/toys/FX8-3DFeatures/src/fx83dfeatures/PNTMeshViewer.java:195-268 | the reverse of an edge occurs if and only if its ends are not on one border of the grid |
| `MeshBuilder.FillPoints` | apps/toys/FX8-3DFeatures/src/fx83dfeatures/PNTMeshViewer.java:90-108 | every point of the grid gets its coordinates |
| `MeshBuilder.PointsPlaced` | apps/toys/FX8-3DFeatures/src/fx83dfeatures/PNTMeshViewer.java:90-108 | point y (nx + 1) + x lies x of nx steps from -10 to 10, y of ny steps, and at the height over that place, all times the scale |
| `MeshBuilder.FillRow` | apps/toys/FX8-3DFeatures/src/fx83dfeatures/PNTMeshViewer.java:168-187 | one row of points and texture coordinates, the others unchanged |
| `MeshBuilder.TexturesPlaced` | apps/toys/FX8-3DFeatures/src/fx83dfeatures/PNTMeshViewer.java:180-186 | the texture coordinates of a point, times nx and ny, are x and y |
| `MeshBuilder.CellsPlaced` | apps/toys/FX8-3DFeatures/src/fx83dfeatures/PNTMeshViewer.java:195-268 | the nine entries of both faces of every cell, and their normals as those of the points the entries name, in that order |
| `MeshBuilder.FillVertices` | apps/toys/FX8-3DFeatures/src/fx83dfeatures/PNTMeshViewer.java:168-187 | points and texture coordinates of all grid points |
| `MeshBuilder.CellCorners` | apps/toys/FX8-3DFeatures/src/fx83dfeatures/PNTMeshViewer.java:197-200 | the point numbers of a cell are the corners of its two triangles |
| `MeshBuilder.ComputeNormal` | apps/toys/FX8-3DFeatures/src/fx83dfeatures/PNTMeshViewer.java:63-69 | the normal is that of the three points the array holds |
| `MeshBuilder.PutTriangle` | apps/toys/FX8-3DFeatures/src/fx83dfeatures/PNTMeshViewer.java:206-235 | one triangle more has its normal and its face |
| `MeshBuilder.FillFaceRow` | apps/toys/FX8-3DFeatures/src/fx83dfeatures/PNTMeshViewer.java:195-268 | the triangles of one row of cells, in order, with the running normal count |
| `MeshBuilder.FillFaces` | apps/toys/FX8-3DFeatures/src/fx83dfeatures/PNTMeshViewer.java:189-268 | all triangles, in order, with the running normal count |
| `MeshBuilder.Mesh.Build` | apps/toys/FX8-3DFeatures/src/fx83dfeatures/PNTMeshViewer.java:150-289 | the arrays hold the mesh of the surface: points, texture coordinates, normals and faces, each written out for every grid point and cell |
| `MeshBuilder.FaceEntries` | apps/toys/FX8-3DFeatures/src/fx83dfeatures/PNTMeshViewer.java:139 | the three normal numbers of a face are equal, and are its own number |
| `MeshBuilder.Mesh.Compute` | apps/toys/FX8-3DFeatures/src/fx83dfeatures/PNTMeshViewer.java:82-148 | on a mesh with the same subdivisions, the arrays then hold the mesh of the current surface, written out likewise; the assertion on normal numbers never fails |
| `MeshBuilder.RefreshAndRebuild` | apps/toys/FX8-3DFeatures/src/fx83dfeatures/PNTMeshViewer.java:82-289 | a mesh built for one surface and refreshed for another has the same four arrays as one built for the other at once |

## Left out

- GL and EGL themselves, dlsym hooks, the JVMTI agent, mmap, open and truncate failures, clocks: foreign calls; results are arbitrary parameters.
- PNG export, pixel read-back, the interactive prompt and all printing of retrace: input and output only.
- Fixed-layout opcodes beyond the table in `Calls`: they repeat its generic case.
- `getFloatPtr`, glGetAttachedShaders, eglGetConfigAttrib and eglChooseConfig with null configurations: their reader and writer do not match, so they are outside the round trip.
- Replay.LoopEnds: reading no bad block is sufficient for the loop to end; which files with reachable bad blocks end it is not characterised.
- Execution.ExecutesWhatWasCalled: fixed-layout calls carry their arguments as a list in the order of the C prototype, results last.
- VertexArrays.PutVertexAttrib: draws whose block sizes overflow an int write past the buffer, which is not modelled; `VertexArrays.CopiesFitExactly` says which these are.
- Signed overflow of C ints: taken to wrap around.
- DrawReplay.DrawReplayedExactly: indices in buffer objects are any list, as their contents are not part of a trace.
- Memory beyond the mapped trace file: it reads as zero in the model.
- Interposer.EverySchedule: the steps of one interceptor are its puts, the original call and its assignments; interleavings inside one put are not modelled, as it holds the lock.
- OutputCuts.CutsAgreeExactly: the screen is a parameter, any function from histories of actions to columns; columns are unbounded; one text and the same text in pieces that end in the same column count as the same.
- Interceptors.PutCall: the optional results of glGetActiveUniform and fixed-layout calls are put from a list.
- Shadows.AgreementExactly: schedules with two binds unapplied at once, or with changes in nested calls, are left to `ShadowOrders.OrdersAgreeExactly`.
- DrawReads.ScheduleReplays: that a log which is not the encoding of its calls does not replay is not claimed of every schedule; `MisreadDraw.DrawMisread` shows one.
- The screen effects of control sequences other than cursor motion and Select Graphic Rendition, operating system commands, wide characters: they are actions with parameters here.
- Dom.Delta2DIsFold: positions between tokens stay below 2^31 lines and 2^30 columns; the sums inside one text are unbounded.
- MoveTo.Screen.MoveTo: one-column characters, spans only, padding enabled, no column limit, start at the cursor home; update in place and node identity of the DOM are values of a zipper; in documents with empty text nodes the insertion point is fixed up to ends of spans.
- One document tree for `MoveTo` and `StyleContext`: the first needs node kinds and text, the second attributes, and each has its own tree.
- StyleContext.StyledScreen.AdjustStyle: attributes other than class and style, and the focus call, are not modelled.
- MeshBuilder.Mesh.Build: coordinates are real numbers, so float rounding is not modelled, nor int overflow of array sizes.
- The other applications and demos, native pty code and Unicode tables of the repository: user interface, system calls or data without an algorithm.
