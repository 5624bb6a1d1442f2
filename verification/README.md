# Verified models of nine mitmproxy components

Each component has a specification in functions, the code in methods of the same shape as the original (classes with
fields, loops, in-place updates) proved against that specification, and files of properties about it. Some of these
state what the specification itself does in terms of what a user sees: literal bytes, displayed places, lines and columns,
covering names (`ViewRules`, `ViewKeys`, `TnetstringFormat`, `XmlHtmlLayout`, `CertCoverage`).

- **Flow view** (`ViewModel`, `ViewProperties`, `ViewRules`, `ViewKeys`, `View`). A state machine whose transitions take the contents of all
  flows at that moment (`World`: sort keys, marks, filter answers). Nothing relates two worlds, so flows change freely
  between calls. A flow is its id and its object identity; a filter is the number of an abstract predicate. Focus and
  settings are fields of the view, and their signal handlers are its methods.
- **tnetstring** (`Text`, `Tnetstring`, `TnetstringProperties`, `TnetstringFormat`). Writer on a deque, parser on bytes with Python's
  slices and `int`, reader on a file. UTF-8 and decimal integers are written out, with Python's limit of 4300 digits;
  `repr` and `float` are parameters. Dict keys are any hashable values, with Python's `True == 1 == 1.0`.
- **HTTP/3 frames** (`Http3`, `Http3Properties`). The incremental splitter with its two buffers, on bidirectional and
  unidirectional streams, against one pass over all bytes.
- **Server replay** (`ServerPlayback`, `PlaybackProperties`). The ordered dictionary of queues; the request hash is a
  function that only rehashing replaces.
- **XML/HTML prettifier** (`XmlHtml`, `XmlHtmlProperties`, `XmlHtmlLayout`). Tokenizer, inline decisions, element stack, formatter.
- **Certificate store** (`CertStore`, `CertProperties`, `CertCoverage`), **ordered multidict** (`MultiDict`, `MultiDictProperties`),
  **codec cache** (`Encoding`), **command lexer** (`CommandLexer`).

Results where the code does less than its documentation or a reader would expect, each with the exact condition and
with a concrete input that shows it:

- `update` and `remove` identify flows by id but search the view by object, so another object with a stored id can
  leave the view and the store disagreeing (`StepKeeps`, `RunKeeps`; input: `StrangersBreak`).
- In reversed order the focus does not stay in place when its flow is removed, and skips a flow when a refresh loses
  its flow (`FocusAfterRemoval`, `NearestIsAdjacent`; inputs: `ReversedRemovalMovesFocus`, `ReversedRefilterSkips`).
- `load` promises what `loads` returns, but accepts fewer length prefixes: `loads` takes signs, blanks, underscores and
  any length (`LoadAgreesWithPop`; input: `BlankPrefix`).
- A dict with a tuple as a key can be dumped but not be loaded, as the key comes back as a list (`PopEncode`,
  `LoadsDumps`; input: `TupleKey`).
- On a unidirectional HTTP/3 stream whose first message ends inside the stream type, each call adds that message once
  more and raises, until the copies are long enough, and then records the type that the copies spell; with an empty
  first message every call raises (`FirstCall`, `Retries`, and `RetriesRight` for when that type is the right one;
  input: `RetryWrong`).
- A closing tag that closes only non-indenting elements loses all indentation (`PopKeepsDepth`, `IndentInStep`; input:
  `HtmlLosesIndent`).
- If the empty name is the first stored name that a request finds, the request misses, and a second one makes a second
  entry under its key; the first one then stays queued without being stored, unless it is just being evicted
  (`GetKeeps`, `RunKeeps`, `RepeatedRequest`, `EmptyNameForgets`; input: `EmptyNameReached`).
- Cached compression of no bytes answers with a text after the empty text was decoded (`EncodeGivesBytes`; input:
  `EmptyTextComesBack`).
- Setting the values of a multidict key twice is not always setting them once: dropped slots do not come back in place
  (`SetTwice`, `SetTwiceExact`; input: `ClearingMoves`).
- An argument of a command does not survive quoting and lexing if it holds both kinds of quotes, as the escape is never
  undone, or a tab, as pyparsing expands tabs before matching (`UnquoteQuote`, `RoundTrip`; input:
  `TabComesBackAsSpaces`).

`dafny verify dfyconfig.toml` checks the project.

## Model

| member | source | states |
|---|---|---|
| ViewProperties.StepKeeps | mitmproxy/addons/view.py:511-661 | one call of any View command, with any contents of the flows, keeps the invariant (sorted by cached keys, no flow twice, view inside the store, every viewed flow has a cached key for the current order, focus None exactly when the view is empty and otherwise viewed, settings only for stored flows) if and only if `update`/`remove` are given the stored object, or the filter rejects the stranger, or the stored flow of that id is not shown |
| ViewProperties.RunKeeps | mitmproxy/addons/view.py:57-80 | along a run from a valid view, with the flows changing arbitrarily between any two commands, the invariant holds before and after every command if and only if every command respects the condition of `StepKeeps` |
| ViewProperties.ViewedIffAccepted | mitmproxy/addons/view.py:634-660 | after every run a stored flow is in the view exactly when the filter accepted it the last time it was added, updated or refiltered (refiltering in marked mode also asks for the mark) |
| ViewProperties.AddKeeps | mitmproxy/addons/view.py:511-523 | `add` ignores a known id, stores any other flow, and shows exactly the accepted ones |
| ViewProperties.UpdateKeeps | mitmproxy/addons/view.py:634-660 | `update` shows exactly the accepted flows; with another object of a stored id it breaks the invariant exactly when the filter accepts that object |
| ViewProperties.RemoveKeeps | mitmproxy/addons/view.py:429-446 | `remove` takes the flow out of view, store and settings; with another object of the id it breaks the invariant exactly when the stored one is shown |
| ViewProperties.RefilterKeeps | mitmproxy/addons/view.py:250-257 | after `_refilter` the view holds exactly the stored flows that pass mark and filter, and the focus is inside |
| ViewProperties.RefilterStable | mitmproxy/addons/view.py:250-257 | after `_refilter` flows with equal keys stand in the order in which they are stored, for every key |
| ViewProperties.ClearNotMarkedKeeps | mitmproxy/addons/view.py:370-380 | exactly the marked flows stay stored, and the settings of the others go |
| ViewProperties.SetOrderKeeps | mitmproxy/addons/view.py:317-327 | a new order keeps the very same flows in the view and the focus on its flow, although no signal is sent |
| ViewProperties.SetOrderStable | mitmproxy/addons/view.py:317-327 | flows that have equal keys under the new order keep their old relative order, for every key |
| ViewProperties.UpdateRefreshes | mitmproxy/addons/view.py:57-65 | after `update` a flow that was viewed stands under its present key, and the focus has not moved |
| ViewProperties.ReentryUsesOldKey | mitmproxy/addons/view.py:70-80 | a flow that comes back into the view is placed by the key cached when it was last seen, whatever its present key is |
| ViewProperties.GetItemIsDisplayed | mitmproxy/addons/view.py:210-227 | indexing agrees with the displayed sequence (the mirror of the sorted list when reversed) at every Python index, negative and out of range included; `_rev` undoes itself on valid indices |
| ViewProperties.IndexIsExact | mitmproxy/addons/view.py:235-238 | `view[view.index(f)]` is f for every viewed flow in both directions |
| ViewProperties.FocusAfterRemoval | mitmproxy/addons/view.py:704-708 | when the focused flow is removed the focus stays at its displayed place if and only if the order is forward, the view had two flows, or the flow stood in the exact middle |
| ViewProperties.NearestIsAdjacent | mitmproxy/addons/view.py:710-716 | when the refresh handler finds the focused flow gone, the new focus is a neighbour of the place where that flow would stand, if and only if the order is forward, or exactly one viewed flow has a key not greater, or none has and the view holds at most two |
| ViewProperties.StrangersBreak | mitmproxy/addons/view.py:429-446 | from the new view, adding a flow and then updating or removing another object with its id breaks the invariant |
| ViewProperties.ReversedRemovalMovesFocus | mitmproxy/addons/view.py:704-708 | three flows shown in reverse, the first one in focus and removed: the focus goes to the second one displayed, not to the first |
| ViewProperties.ReversedRefilterSkips | mitmproxy/addons/view.py:710-716 | the same view, with the focused flow filtered out: the focus skips the next flow |
| ViewRules.FocusRule | mitmproxy/addons/view.py:663-722 | for every command, where the focus is afterwards in terms of the displayed flows: on its flow as long as that is displayed (removing or rejecting another flow does not move it), on a followed flow that enters, on the first displayed flow if there was none, at the clamped offset, one displayed place further or back, at the raw position of a removed flow, or at the place that a refresh picks |
| ViewRules.ViewRule | mitmproxy/addons/view.py:511-661 | `add`, `update` and `remove` leave all other viewed flows where they are; the flow itself stands by its cached key behind flows with the same key, and does not move if its key is unchanged; the commands for the focus and the flags leave the sorted list alone |
| ViewRules.RefilterRule | mitmproxy/addons/view.py:250-257 | after a refilter exactly the stored flows are viewed that have a mark, if marks are asked for, and that the filter accepts; those with equal keys stand in the order of the store |
| ViewRules.StoreRule | mitmproxy/addons/view.py:360-523 | the stored flows after every command, in order: new ones last, removed and unmarked ones gone, none after `clear` |
| ViewRules.SettingsRule | mitmproxy/addons/view.py:312-356 | each command changes its own one of order, direction, follow mode, filter and marked mode, and no other |
| ViewKeys.KeyRule | mitmproxy/addons/view.py:57-80 | no cached key of a stored flow is lost or changed, for the current order or any other one, except that `update` gives an accepted viewed flow its present key; only the key of a viewed flow or of the one searched for is newly cached, with its present value |
| ViewKeys.AskedCached | mitmproxy/addons/view.py:70-80 | the key of every viewed flow, and of the flow searched for in a view that is not empty, is cached |
| FlowView.OrderNames | mitmproxy/addons/view.py:156-162 | the order names are exactly `time`, `method`, `url` and `size`, each with its own order |
| FlowView.View.constructor | mitmproxy/addons/view.py:147-187 | a new view is empty, in its default order, forward, without marked and follow mode, and valid |
| FlowView.View.Key | mitmproxy/addons/view.py:70-80 | gives the cached key of a stored flow, caches a computed one, and caches nothing for other flows |
| FlowView.View.BaseAddFlow | mitmproxy/addons/view.py:246-248 | caches the key and inserts the flow behind all entries with a key not greater |
| FlowView.View.SetFocus | mitmproxy/addons/view.py:682-687 | sets the focus to a flow that the setter finds in the view; every assignment of a flow to the focus is a call of it, so the ValueError of the setter occurs only in `duplicate` |
| FlowView.View.FocusSigRefresh | mitmproxy/addons/view.py:710-716 | refines the model of the refresh handler of the focus |
| FlowView.View.FocusSigRemove | mitmproxy/addons/view.py:704-708 | refines the model of the removal handler of the focus |
| FlowView.View.RefreshFlow | mitmproxy/addons/view.py:57-65 | removes under the old key and re-inserts under the new one; neither the KeyError nor the ValueError can occur |
| FlowView.View.Add | mitmproxy/addons/view.py:511-523 | refines the run of single additions, from a valid view to a valid view |
| FlowView.View.Update | mitmproxy/addons/view.py:634-660 | refines the run of single updates, and leaves the store alone; the view is valid afterwards if and only if every update respected the condition of `StepKeeps` |
| FlowView.View.Remove | mitmproxy/addons/view.py:429-447 | refines the run of single removals; the view is valid afterwards if and only if every removal respected the condition of `StepKeeps` |
| FlowView.View.RefilterView | mitmproxy/addons/view.py:250-257 | the loop over the store refines re-adding exactly the flows selected by mark and filter |
| FlowView.View.SetOrderName | mitmproxy/addons/view.py:317-327 | refines re-sorting under a known name; an unknown name is the error and changes nothing |
| FlowView.View.GetItemAt | mitmproxy/addons/view.py:226-227 | reads the displayed sequence at any Python index, or raises the IndexError |
| FlowView.View.SetFilter | mitmproxy/addons/view.py:354-356 | refines refiltering under the new filter and keeps the view valid |
| FlowView.View.ToggleMarked | mitmproxy/addons/view.py:548-553 | refines refiltering with the mark asked for or not, and keeps the view valid |
| FlowView.View.SetReversed | mitmproxy/addons/view.py:312-314 | refines turning the display around with its refresh signal, and keeps the view valid |
| FlowView.View.ClearNotMarked | mitmproxy/addons/view.py:370-380 | refines the model transition and keeps the view valid |
| FlowView.View.Clear | mitmproxy/addons/view.py:360-367 | refines the model transition: empties everything, focus and settings included |
| FlowView.View.GoTo | mitmproxy/addons/view.py:263-277 | refines the clamped jump and keeps the view valid |
| FlowView.View.FocusStep | mitmproxy/addons/view.py:280-301 | refines moving the focus by one displayed position, inside the view only |
| FlowView.View.Duplicate | mitmproxy/addons/view.py:417-426 | the copies are always added; then the focus goes to the first one, which fails exactly when the filter rejects it; the whole state is given, settings included |
| TnetstringProperties.PopEncode | mitmproxy/io/tnetstring.py:243-258 | for every value that `dumps` writes and every remainder r, `pop(dumps(v) + r)` is the value with every dict in the opposite insertion order and tuples as lists, and r; except exactly when a tuple is a dict key, which raises the TypeError |
| TnetstringProperties.MirrorSame | mitmproxy/io/tnetstring.py:139-148 | that value equals the original when the order of dict entries does not matter and a tuple may become a list |
| TnetstringProperties.MirrorTwice | mitmproxy/io/tnetstring.py:139-148 | writing and reading twice restores even the insertion order; only tuples stay lists |
| TnetstringProperties.LoadsDumps | mitmproxy/io/tnetstring.py:153-157 | `loads(dumps(v))` equals v in this sense and consumes everything, or raises the TypeError exactly when a tuple is a dict key |
| TnetstringProperties.TupleKey | mitmproxy/io/tnetstring.py:139-148 | the dict with the empty tuple as its key is dumped and cannot be read back |
| TnetstringProperties.PrefixFree | mitmproxy/io/tnetstring.py:70-148 | no encoding is a proper prefix of another one; equal encodings of values without tuple keys belong to equal values, up to tuples being lists |
| TnetstringProperties.LoadAgreesWithPop | mitmproxy/io/tnetstring.py:160-184 | on every file content `load` succeeds exactly when `loads` would and the length prefix is 1 to 12 plain digits; it returns the same value and stops where `pop` leaves its remainder |
| TnetstringProperties.BlankPrefix | mitmproxy/io/tnetstring.py:160-184 | `" 3:abc,"` is parsed by `pop` to its three bytes, and refused by `load` after one byte |
| TnetstringProperties.LoadEncode | mitmproxy/io/tnetstring.py:160-184 | `load` reads a dump if and only if its payload length has at most 12 digits and no tuple is a dict key, and then consumes exactly this encoding |
| TnetstringProperties.LoadConcatenated | mitmproxy/io/tnetstring.py:160-184 | concatenated dumps that `load` can read come back as the same sequence of values, leaving what follows |
| TnetstringFormat.WireFormat | mitmproxy/io/tnetstring.py:70-150 | the bytes of every value, literally: `0:~`, `4:true!`, `5:false!`, and for the other types length, colon, payload and the tag `#`, `^`, `,`, `;`, `]` or `}`; items in order, entries from the last to the first with the key ahead of its value |
| TnetstringFormat.ParsedTags | mitmproxy/io/tnetstring.py:187-226 | what the parser makes of every tag byte and payload, literally, all failures included; a list is exactly what can be popped one after the other |
| TnetstringFormat.DigitsAreDecimal | mitmproxy/io/tnetstring.py:96-101 | `str` of a number is its ASCII decimal digits without a leading zero |
| TnetstringFormat.IntTextIs | mitmproxy/io/tnetstring.py:96-101 | negative numbers get a minus sign; `str` works exactly below 10 to the 4300 |
| TnetstringFormat.IntIs | mitmproxy/io/tnetstring.py:187-240 | `int` of bytes accepts blanks around, one sign, and digits with single underscores between them, of which there are at most 4300, and gives their decimal value |
| TnetstringFormat.Utf8 | mitmproxy/io/tnetstring.py:121-129 | each character is written in one to four bytes as section 3 of RFC 3629 lays them out |
| TnetstringFormat.Utf8Text | mitmproxy/io/tnetstring.py:121-129 | the bytes of a text are those of its characters in order |
| TnetstringFormat.Utf8One | mitmproxy/io/tnetstring.py:121-129 | the empty text has no bytes, and a text of one character those of the character |
| TnetstringFormat.PutLaw | mitmproxy/io/tnetstring.py:218-224 | `d[k] = v` gives the key its value and no other key another one; an equal key keeps its place and spelling |
| TnetstringFormat.LaterValueWins | mitmproxy/io/tnetstring.py:218-224 | a key repeated in the bytes of a dict takes the later value |
| TnetstringFormat.KeyEquality | mitmproxy/io/tnetstring.py:218-224 | numbers are equal keys by value whatever their type, no NaN equals anything, other scalar keys are equal only if they are the same |
| TnetstringFormat.KeysHashable | mitmproxy/io/tnetstring.py:218-224 | lists and dicts are no keys, and tuples only if their items are |
| TnetstringFormat.PopCases | mitmproxy/io/tnetstring.py:229-258 | `pop` by the first colon, a length as `int` reads it, and Python's slices, negative lengths and all failures included |
| TnetstringFormat.LoadCases | mitmproxy/io/tnetstring.py:160-184 | `load` by the number of leading digits: what is returned or raised, and after how many bytes |
| Tnetstring.RDumpQ | mitmproxy/io/tnetstring.py:70-150 | for every type, floats and tuples included, the reverse writer prepends exactly the bytes of the direct encoding and returns the old size plus their number; it raises exactly if an integer or a length has more digits than `str` allows |
| Tnetstring.RDumpItems | mitmproxy/io/tnetstring.py:130-138 | the loop from the end of a list prepends the encodings of its items in order, or raises with the first item that cannot be written |
| Tnetstring.RDumpEntries | mitmproxy/io/tnetstring.py:139-148 | the loop over a dict prepends its entries, so that the last one comes first, or raises with the first one that cannot be written |
| Tnetstring.Dumps | mitmproxy/io/tnetstring.py:50-59 | joining the deque gives the direct encoding, or the writer raises |
| Tnetstring.SplitAtColon | mitmproxy/io/tnetstring.py:229-240 | the scan finds the first colon and reads the prefix as `int` does |
| Tnetstring.PopValue | mitmproxy/io/tnetstring.py:243-258 | refines the parsing function, negative lengths and all errors included |
| Tnetstring.ParseValue | mitmproxy/io/tnetstring.py:187-226 | refines the parsing function for every type tag, floats included |
| Tnetstring.File.Load | mitmproxy/io/tnetstring.py:160-184 | reads one byte at a time, and leaves the file position exactly where the model says, on success and on every error |
| Text.DecodeIsInverse | mitmproxy/io/tnetstring.py:121-129 | strict UTF-8 decoding accepts exactly the encodings and undoes them |
| Text.IntRead | mitmproxy/io/tnetstring.py:96-101 | `int` undoes `str` for every integer up to the limit of 4300 digits, and beyond it refuses |
| Http3Properties.ChunkingIndependence | mitmproxy/contentviews/_view_http3.py:97-132 | however the bytes of a direction are cut into messages, the frames collected in message order are those of one pass over all its bytes, and its buffer is what that pass leaves; on a unidirectional stream the stream type comes first |
| Http3Properties.AnySchedule | mitmproxy/contentviews/_view_http3.py:97-132 | any sequence of calls of `prettify`, each at any number of messages, raises nothing and ends in the state in which every message found so far was seen once |
| Http3Properties.SameBytesSameFrames | mitmproxy/contentviews/_view_http3.py:97-132 | two ways of cutting the same bytes give the same frames |
| Http3Properties.RecordedWhenComplete | mitmproxy/contentviews/_view_http3.py:126-132 | each frame is recorded under the message that completes it |
| Http3Properties.FramesSettle | mitmproxy/contentviews/_view_http3.py:126-132 | what is recorded for a message never changes afterwards |
| Http3Properties.ParseAppend | mitmproxy/contentviews/_view_http3.py:111-130 | reading in two steps and keeping the rest is reading in one |
| Http3Properties.Conservation | mitmproxy/contentviews/_view_http3.py:111-130 | the consumed slices and the leftover are the input, each slice is exactly its frame, and the leftover has no complete frame at its front |
| Http3Properties.Delivered | mitmproxy/contentviews/_view_http3.py:97-132 | frames encoded as section 7.1 of RFC 9114 lays them out, cut anywhere, are collected unchanged |
| Http3Properties.FirstCall | mitmproxy/contentviews/_view_http3.py:97-109 | the first call returns, on however many messages, if and only if the first message of a unidirectional stream holds the whole stream type |
| Http3Properties.Retries | mitmproxy/contentviews/_view_http3.py:97-109 | otherwise, over any sequence of calls, the n-th call raises and leaves n copies of the first message in the buffer as long as these are shorter than the stream type (always, if that message is empty); the first call with enough copies returns and records the type that they spell, which stays |
| Http3Properties.RetriesRight | mitmproxy/contentviews/_view_http3.py:97-109 | the type so recorded is the one at the front of all bytes received in that direction if and only if these begin like the copies, as far as the type goes |
| Http3Properties.RetryWrong | mitmproxy/contentviews/_view_http3.py:97-109 | 0x40 and 0x01 in two messages are the stream type 1, but after a call on the first message alone 0x40 is recorded |
| Http3.WindowIsEnough | mitmproxy/contentviews/_view_http3.py:112-117 | a header read from the first 16 bytes is the header read from the whole buffer |
| Http3.ConnectionState.TakeFrame | mitmproxy/contentviews/_view_http3.py:111-130 | one turn of the inner loop takes the complete frame at the front, if there is one, and records it |
| Http3.ConnectionState.SplitFrames | mitmproxy/contentviews/_view_http3.py:111-130 | the inner loop ends with what one pass leaves over and records what it finds; the buffer shrinks at every turn |
| Http3.ConnectionState.ProcessMessage | mitmproxy/contentviews/_view_http3.py:97-132 | one turn of the outer loop, or the uncaught error that leaves the message uncounted but its bytes kept |
| Http3.ConnectionState.Prettify | mitmproxy/contentviews/_view_http3.py:89-134 | refines the loop over the messages not seen yet, from any state |
| PlaybackProperties.NextLaw | mitmproxy/addons/serverplayback.py:225-248 | without reuse `next_flow` returns the earliest flow under the hash that has a response, removes it and the response-less ones ahead of it, and nothing else; with reuse it returns the same flow and removes nothing; no list is left empty |
| PlaybackProperties.FirstInFirstOut | mitmproxy/addons/serverplayback.py:139-248 | over every run with an unchanged hash, the flows taken from a queue (loading and clearing take all) followed by those waiting are the initial ones followed by those that came, in this order |
| PlaybackProperties.OrderAcrossRehashing | mitmproxy/addons/serverplayback.py:139-276 | over every whole run, with rehashing at any time: of any flows that every hash of the run puts into one queue, those taken followed by those waiting are the initial ones followed by those that came, in this order |
| PlaybackProperties.Conservation | mitmproxy/addons/serverplayback.py:147-276 | over every run of loading, adding, serving, clearing and rehashing, the flows that were there or came are those returned by `next_flow` and removed, those discarded, those dropped by loading or clearing, and those still waiting, as multisets |
| PlaybackProperties.DiscardedUnready | mitmproxy/addons/serverplayback.py:225-248 | every flow counted as discarded has no response, and every flow counted as served has one |
| PlaybackProperties.RunKeeps | mitmproxy/addons/serverplayback.py:147-276 | in every run of loading, adding, serving, clearing and rehashing no list is empty, no hash occurs twice, and every flow waits under its present hash |
| PlaybackProperties.AddAppends | mitmproxy/addons/serverplayback.py:147-155 | adding appends to every queue its own HTTP flows in their order |
| PlaybackProperties.RecomputeLaw | mitmproxy/addons/serverplayback.py:270-276 | rehashing puts every flow under its new hash, and flows that shared a queue before and share one afterwards keep their order |
| PlaybackProperties.RecomputeFlat | mitmproxy/addons/serverplayback.py:270-276 | rehashing keeps the multiset of waiting flows and their count |
| PlaybackProperties.RecomputeSame | mitmproxy/addons/serverplayback.py:270-276 | rehashing with an unchanged hash leaves every queue as it is |
| PlaybackProperties.MergeOrder | mitmproxy/addons/serverplayback.py:270-276 | when queues merge, flows of an earlier dictionary key come first, and those of one queue stay in their order |
| PlaybackProperties.AddOrder | mitmproxy/addons/serverplayback.py:147-155 | a new hash comes last in the dictionary, and a known one keeps its place |
| PlaybackProperties.ServeOrder | mitmproxy/addons/serverplayback.py:225-248 | serving takes exactly the emptied hash out of the dictionary and leaves the others in order |
| ServerPlayback.Playback.NextFlow | mitmproxy/addons/serverplayback.py:225-248 | the popping loop refines the model and never pops from an empty list |
| ServerPlayback.Playback.AddFlows | mitmproxy/addons/serverplayback.py:147-155 | the loop refines adding one flow after the other |
| ServerPlayback.Playback.Count | mitmproxy/addons/serverplayback.py:174-175 | the sum of the lengths is the number of waiting flows |
| ServerPlayback.Playback.RecomputeHashes | mitmproxy/addons/serverplayback.py:270-276 | reloads all waiting flows in dictionary order |
| XmlHtmlProperties.WhitespaceOnly | mitmproxy/contentviews/_view_xml_html.py:104-244 | without whitespace, the formatted text is the input, for every string, if `textwrap` only changes whitespace |
| XmlHtmlProperties.ChunksInk | mitmproxy/contentviews/_view_xml_html.py:209-244 | every token is written exactly once, whatever is decided about inlining |
| XmlHtmlProperties.TextModeInk | mitmproxy/contentviews/_view_xml_html.py:104-130 | tokenizing loses nothing but whitespace |
| XmlHtmlProperties.ShapeIsExact | mitmproxy/contentviews/_view_xml_html.py:104-130 | exactly these sequences are tokenizations: texts without `<` and not blank, never two in a row, tags as short as they can be finished, the last one possibly cut off; each is found again in its own text |
| XmlHtmlProperties.TokensStable | mitmproxy/contentviews/_view_xml_html.py:104-130 | tokenizing what the tokens hold changes nothing |
| XmlHtmlProperties.IndentBounded | mitmproxy/contentviews/_view_xml_html.py:179-206 | the indentation never exceeds two columns for each open indenting element, of which at most 17 are tracked |
| XmlHtmlProperties.PopKeepsDepth | mitmproxy/contentviews/_view_xml_html.py:195-206 | a closing tag keeps an indentation that is in step with the nesting in step, exactly unless it closes only non-indenting elements while there is an indentation |
| XmlHtmlProperties.IndentInStep | mitmproxy/contentviews/_view_xml_html.py:179-244 | up to any token of any document, the indentation is two columns for each open indenting element before every token if and only if no token before is such a closing tag |
| XmlHtmlProperties.HtmlLosesIndent | mitmproxy/contentviews/_view_xml_html.py:195-206 | after `<a><html></html>` the element a is open and nothing is indented |
| XmlHtmlLayout.FormatIs | mitmproxy/contentviews/_view_xml_html.py:209-244 | the formatted text is the lines of its tokens in order: an empty element or one with one line of text goes on one line, with its text stripped and its closing tag as it is; every other token gets a line of its own, indented by the spaces of its place, closing tags by those outside their element |
| XmlHtmlLayout.StackIs | mitmproxy/contentviews/_view_xml_html.py:179-206 | for every document, the open elements and the number of spaces before each token: two for each indenting element, less when it is closed, none after a tag that closes only elements of the other kind |
| XmlHtmlLayout.SpacesAreDepth | mitmproxy/contentviews/_view_xml_html.py:179-206 | before every token up to which no closing tag lost the indentation, the spaces are two for each open indenting element |
| XmlHtmlLayout.Kinds | mitmproxy/contentviews/_view_xml_html.py:68-101 | which tags are closing and opening, and where a comment, a CDATA section and any other tag end, by their literal beginnings and ends and the list of void elements |
| XmlHtmlLayout.NameOfTag | mitmproxy/contentviews/_view_xml_html.py:60-66 | the name of a tag is its first run of name characters in lower case |
| XmlHtmlLayout.NameBeforeEquals | mitmproxy/contentviews/_view_xml_html.py:23-23 | a run directly before an equals sign loses its last character, and does not count if it has no other |
| XmlHtmlLayout.NameElsewhere | mitmproxy/contentviews/_view_xml_html.py:60-66 | any other run is the name, and what is no run is passed over |
| XmlHtmlLayout.TagNameIs | mitmproxy/contentviews/_view_xml_html.py:60-66 | the name found is put in lower case, and a tag without one is called `<empty>` |
| XmlHtmlLayout.NoName | mitmproxy/contentviews/_view_xml_html.py:60-66 | a tag without name characters has no name |
| XmlHtmlLayout.StripIs | mitmproxy/contentviews/_view_xml_html.py:54-57 | a stripped text reaches from the first to the last character that is no whitespace |
| XmlHtmlLayout.Whitespace | mitmproxy/contentviews/_view_xml_html.py:54-57 | the code points that are stripped as whitespace |
| XmlHtml.Tokenize | mitmproxy/contentviews/_view_xml_html.py:104-130 | the two-mode loop terminates and yields the tokens of the model |
| XmlHtml.ElementStack.PopTag | mitmproxy/contentviews/_view_xml_html.py:195-206 | the popping loop unwinds to the innermost element with the tag, slice by `-0` included |
| XmlHtml.FormatXml | mitmproxy/contentviews/_view_xml_html.py:209-244 | the loop over the windows writes the chunks of the model, in order |
| CertProperties.RunKeeps | mitmproxy/certs.py:632-708 | if made entries are new, then along a run it holds at every point that generated keys are exactly those of queued entries, one key each, at most STORE_CAP of them, and that entries added by hand are not queued, if and only if no queued entry is added by hand and no request overwrites (see `GetKeeps`) |
| CertProperties.NoEmptyName | mitmproxy/certs.py:632-708 | in a run that never registers the empty name, no request overwrites |
| CertProperties.GeneratedAreLastMade | mitmproxy/certs.py:466-470 | in every run from an empty store the generated entries present are exactly the last STORE_CAP ones made |
| CertProperties.QueueIsLastMade | mitmproxy/certs.py:466-470 | the queue holds the last entries made in insertion order |
| CertProperties.StaysCached | mitmproxy/certs.py:661-708 | a generated entry answers its key as long as it is queued; a name added by hand is never evicted, and its entry is the same unless the name is registered again |
| CertProperties.AddKeeps | mitmproxy/certs.py:632-642 | adding by hand keeps the invariant if and only if it writes nothing or the entry is not queued; the empty name is stored afterwards exactly if it was before or is written |
| CertProperties.GetKeeps | mitmproxy/certs.py:661-708 | with a new entry for a miss, a request keeps the invariant if and only if it does not overwrite: it does not miss, or its own key is not stored, or the queue is full with the old entry of that key at its head; the entry it returns is in the store in any case |
| CertProperties.MissedKey | mitmproxy/certs.py:680-690 | a request that misses while its own key is stored has the empty name as the first name found |
| CertProperties.GetIsFirstMatch | mitmproxy/certs.py:680-690 | the answer is the entry of the first potential key known; an entry is made exactly if there is none, or if that key is the empty name |
| CertProperties.RepeatedRequest | mitmproxy/certs.py:661-708 | asking again gives the same entry and changes nothing, if and only if the first name found is not the empty one |
| CertProperties.EmptyNameForgets | mitmproxy/certs.py:689-706 | if the empty name is the first name found, for any request, the entry made first stays queued and after the second request no key holds it |
| CertProperties.EmptyNameReached | mitmproxy/certs.py:632-708 | from the empty store: an entry under the empty name and two requests for that name break the invariant |
| CertProperties.FormsExact | mitmproxy/certs.py:645-659 | the asterisk forms are the name and one form for each of its dots, and no others |
| CertCoverage.FirstCoveringAnswers | mitmproxy/certs.py:661-708 | of the registered names that cover a request (the common name, the alternative names, for DNS names the wildcard for what follows each dot, and `*`) the one answers that is wanted first, the common name ahead of the alternative names ahead of `*`, and among those for one name the one that leaves out least; the empty name is taken for none |
| CertCoverage.NotCoveredAnswers | mitmproxy/certs.py:661-708 | if no covering name is registered, the same earlier request answers, and otherwise a new entry is made and stored for it |
| CertCoverage.MadeExactly | mitmproxy/certs.py:661-708 | without the empty name, an entry is made if and only if no covering name and not the request itself is stored |
| CertCoverage.StarAnswers | mitmproxy/certs.py:661-708 | an entry registered under `*` answers whatever no other covering name answers |
| CertCoverage.AddRegisters | mitmproxy/certs.py:632-642 | `add_cert` registers the entry under its common name, if it has one, its alternative names and the names given, and touches nothing else |
| CertStore.AsteriskForms | mitmproxy/certs.py:645-659 | the loop over the split name builds the forms of the model |
| CertStore.Certificates.GetCert | mitmproxy/certs.py:661-708 | refines the model: store, queue and answer |
| CertStore.Certificates.AddCert | mitmproxy/certs.py:632-642 | refines the model: every name is registered, nothing is queued |
| CertStore.Certificates.ExpireEntry | mitmproxy/certs.py:466-470 | refines the model: the oldest entry is evicted under all its keys |
| MultiDictProperties.GetAfterSet | mitmproxy/coretypes/multidict.py:79-102 | after `set_all(k, vs)`, `get_all(k)` is vs, for any `_kconv` |
| MultiDictProperties.OthersAfterSet | mitmproxy/coretypes/multidict.py:87-102 | all other fields keep their contents and their order |
| MultiDictProperties.OtherKeysAfterSet | mitmproxy/coretypes/multidict.py:87-102 | the values of every other key stay as they are |
| MultiDictProperties.SpellingsAfterSet | mitmproxy/coretypes/multidict.py:87-102 | reused slots keep the old spelling of the key, surplus values get the new one |
| MultiDictProperties.SetWhatIsThere | mitmproxy/coretypes/multidict.py:79-102 | setting the values that are there changes nothing |
| MultiDictProperties.SetInPlace | mitmproxy/coretypes/multidict.py:87-102 | with as many values as before no field moves and no spelling changes |
| MultiDictProperties.SurplusAtEnd | mitmproxy/coretypes/multidict.py:87-102 | with at least as many values as slots, the surplus values stand behind all fields, in order, under the given spelling |
| MultiDictProperties.LastSlotsGo | mitmproxy/coretypes/multidict.py:87-102 | with fewer values than slots, the first slots are filled in their places and the last ones are dropped; the other fields between and behind them stay where they are |
| MultiDictProperties.SetTwice | mitmproxy/coretypes/multidict.py:87-102 | setting twice is setting the second values once, if the first values are at least as many as the slots that the second ones fill |
| MultiDictProperties.SetTwiceExact | mitmproxy/coretypes/multidict.py:87-102 | otherwise if and only if from the first dropped slot on there are only slots, and those to be filled have the given spelling |
| MultiDictProperties.ClearingMoves | mitmproxy/coretypes/multidict.py:87-102 | clearing the first of two keys and setting it again moves it behind the other one |
| MultiDictProperties.DeleteIsSetNone | mitmproxy/coretypes/multidict.py:55-61 | deleting a key is setting it to no values |
| MultiDictProperties.InsertRead | mitmproxy/coretypes/multidict.py:110-115 | an inserted value stands among the values of its key where its index says, negative and out of range included, and no other key sees it |
| MultiDictProperties.KeysComplete | mitmproxy/coretypes/multidict.py:63-69 | iteration lists a spelling of every canonical key |
| MultiDictProperties.KeysOnce | mitmproxy/coretypes/multidict.py:63-69 | iteration lists no key twice, and each in its first spelling |
| MultiDictProperties.KeysInOrder | mitmproxy/coretypes/multidict.py:63-69 | iteration goes through the first fields of the keys in field order |
| MultiDictProperties.LengthIsCount | mitmproxy/coretypes/multidict.py:71-72 | the length is the number of keys listed |
| MultiDict.MultiDict.SetAllFrom | mitmproxy/coretypes/multidict.py:87-102 | the popping loops refine the model and empty the caller's list |
| MultiDict.MultiDict.DeleteItem | mitmproxy/coretypes/multidict.py:55-61 | removes exactly the fields of the key, after which it has no values and every other key reads as before, or raises and changes nothing |
| MultiDict.MultiDict.Iterate | mitmproxy/coretypes/multidict.py:63-69 | the loop with its set of seen keys lists the keys of the model |
| Encoding.DecodeRefines | mitmproxy/net/encoding.py:35-79 | after any calls cached decoding answers what uncached decoding would |
| Encoding.EncodeRefines | mitmproxy/net/encoding.py:93-136 | after any calls cached encoding succeeds where uncached encoding does, and its answer decodes to its input, even out of a cell filled by decoding |
| Encoding.DecodeAnswers | mitmproxy/net/encoding.py:35-79 | after any calls, by the lower-case name of the encoding: `none` and `identity` give the input, the five compressions no bytes for an empty body and else what the library gives, and any other name what the Python codec gives |
| Encoding.EncodeAnswers | mitmproxy/net/encoding.py:93-136 | the same for encoding, where a compression gives what the library gives or, out of the cell, something that decodes to the input |
| Encoding.FirstAnswers | mitmproxy/net/encoding.py:93-136 | without a cell, a compression gives what the library gives |
| Encoding.CellAfter | mitmproxy/net/encoding.py:35-136 | a call fills the cell exactly if it is one of the five compressions, succeeds, and is not answered by the cell |
| Encoding.RunKeepsCell | mitmproxy/net/encoding.py:19-20 | the cell always holds a pair that uncached decoding confirms |
| Encoding.EncodeGivesBytes | mitmproxy/net/encoding.py:93-136 | over all runs of calls, cached compression answers with a text if and only if it is given no bytes, some call decoded the empty text under the same compression and error handling, and no later call refilled the cell; this assumes that compressors give bytes and that decompressors refuse texts |
| Encoding.EmptyTextComesBack | mitmproxy/net/encoding.py:109-117 | one call is enough: after decoding the empty text, encoding no bytes answers with that text |
| Encoding.Module.Decode | mitmproxy/net/encoding.py:35-79 | refines the cached decoding, with its one cell updated in place |
| Encoding.Module.Encode | mitmproxy/net/encoding.py:93-136 | refines the cached encoding, with its one cell updated in place |
| CommandLexer.LexLossless | mitmproxy/command_lexer.py:9-24 | the tokens of any input make up the input with its tabs expanded, so the input itself if and only if it holds no tab |
| CommandLexer.TokenStable | mitmproxy/command_lexer.py:9-24 | every token of any input is a token by itself, and not empty |
| CommandLexer.LexLine | mitmproxy/command_lexer.py:9-34 | lexing quoted arguments joined by single spaces gives one token for each argument between the separators, with its tabs expanded at the column where it stands, for every list of arguments |
| CommandLexer.UnquoteQuote | mitmproxy/command_lexer.py:27-41 | unquoting undoes quoting if and only if the argument does not hold both kinds of quotes; otherwise it gives the escaped argument |
| CommandLexer.RoundTrip | mitmproxy/command_lexer.py:9-41 | quoting, joining, lexing and unquoting gives the arguments back if and only if none holds a tab or both kinds of quotes |
| CommandLexer.QuoteIs | mitmproxy/command_lexer.py:27-34 | a text stays bare exactly if it is not empty and holds no quote and no whitespace; otherwise it is put in quotes of a kind that it does not hold, or in double ones with its own replaced |
| CommandLexer.UnquoteIs | mitmproxy/command_lexer.py:37-41 | unquoting takes off a pair of equal quotes at the two ends, and changes nothing else |
| CommandLexer.LexIs | mitmproxy/command_lexer.py:9-24 | a token is a quoted string up to its quote or the end of the input, a whole run of whitespace, or a whole run without both |
| CommandLexer.EndFound | mitmproxy/command_lexer.py:9-24 | every input starts with such a token |
| CommandLexer.ExpandIs | mitmproxy/command_lexer.py:20-24 | before matching, a tab becomes spaces up to the next multiple of eight places behind the last line break, and nothing else changes |
| CommandLexer.TabComesBackAsSpaces | mitmproxy/command_lexer.py:9-41 | the argument that is one tab comes back as seven spaces |

## Left out

- View: command registration, options, file loading, logging, `kill`, `resolve`, `create`, and user settings under other keys (`getvalue`, `setvalue`); sort keys are integers, filters are abstract predicates, and signals have no other listeners.
- FlowView.View.Update: what later updates of the same call do after one of them has broken the view is not modelled, as the focus setter may raise then; only the last one may pass a stranger.
- FlowView.View.Remove: the same as for `Update`.
- FlowView.View.Duplicate: takes the copies as given, with new and distinct ids.
- The sorted list of the sortedcontainers library is modelled by its documented behaviour (insert to the right of equal keys, search by key and then by equality), not by its internal lists.
- tnetstring: Python's recursion limit, and the ValueError for objects of other types; `repr` and `float` are parameters, assumed to undo each other on the floats of a value; strings hold Unicode scalar values, as lone surrogates cannot be encoded.
- TnetstringProperties.MirrorSame: counts a NaN as equal to itself, and a tuple as equal to the list that it becomes, which Python's `==` does not.
- HTTP/3: rendering of frames, QPACK, settings, hex dumps; `prettify` is given the position of the message it is asked about.
- Server replay: how the hash is computed, response construction and refreshing, the option handling around rehashing, and the update hook.
- XML/HTML: `textwrap` is a parameter that only changes whitespace.
- Certificates: cryptography, files, and the conversion of legacy alternative names; an entry is a value with an identity and the names in its certificate, and equality of entries is equality of these values.
- Multidict: `items`, `values` and the folding of values by `_reduce_values`; the view variant that stores its fields elsewhere.
- Encoding: the compression libraries and Python's codecs are parameters, and a KeyError inside a custom decoder (which falls back to Python's codecs) is not modelled.
- Command lexer: typed parsing and execution of commands and the dropping of blank tokens; of the pyparsing library only the matching of this grammar and the expansion of tabs before it are modelled.
