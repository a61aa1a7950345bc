# BlackEye: verified models of its algorithms and protocols

BlackEye is a terminal dashboard over `/proc` and a few system tools. Most of it is input and
output; this project is about the parts that compute something hard. Each is modelled in the form
the Go code has it, a class with fields where the code has an object that changes, a method with a
loop where the code loops, and proved against a specification about which the actual theorems are.

* **Terminal** (`AnsiTokens`, `TokenBoundaries`, `LineEdit`, `LineWidth`, `ScrollWindow`,
  `Terminal`, `CellTerminal`, `TerminalSession`, `TokenEffects`, `CutEscapes`, `StoredLines`). Lines
  are strings with escape sequences inline. A theory of tokens says when an escape is closed and
  when text may be cut; with it the byte loops refine a plain terminal of lines of cells, over whole
  sessions and however the output was cut into reads between tokens.
* **D-Bus** (`DbusWire`, `DbusBuild`, `DbusDecode`, `DbusMessages`, `DbusScan`, `DbusLayout`,
  `DbusReply`, `DbusEnvelope`, `DbusRoundTrip`, `DbusMisread`). The message builders against an
  independent decoder written from the D-Bus Specification (sections "Message Format" and
  "Marshaling (Wire Format)"), and the heuristic scanner, which tries a length word at every byte
  offset, against a marshaller for whole `ListUnits` replies.
* **Process tree** (`Ancestry`, `Preorder`, `TreeDrawing`, `ProcessTree`, `ProcessView`). The
  pointer forest is built, sorted and walked in place; the listing is a faithful outline for any
  parent links, cycles included, and its connectors are derived from the parent links alone.
* **Event bus and registry** (`Bus`, `BusProtocol`, `BusSafety`, `BusTopics`, `BusDelivery`,
  `BusProgress`, `Registry`, `Shutdown`). The methods of the bus under the lock, and a state machine
  of any number of threads that take atomic steps in any interleaving, with the read/write lock, the
  bounded lossy channels, the bridges, the services, the wait group and `StopAll`.
* **Dashboard** (`PanelLayout`, `Dashboard`), **sparkline** (`Sparkline`), **alert store**
  (`AlertVerdicts`, `Alerts`) and **signal dialog** (`SignalDialog`, `ProcessTab`).

Characters of the terminal are single symbols: `parseEscape` works on bytes, so the stream is
modelled as 7-bit. The two width measures and the sparkline are exact; the sparkline uses real
numbers for the program's floats. Clocks, the answers of the operating system and the sizes of
rendered panels are parameters.

## Where the code does less than its comments suggest

Each of these is a theorem with the exact condition, or a concrete input.

* `overwriteAtCol` is said to preserve escapes. It does exactly when the line has no unclosed escape
  or the column is already occupied (`LineEdit.OverwriteKeepsEscapesIff`). A read cut inside `ESC [`
  leaves a line where it does not (`CutEscapes.CutLeavesOpenLine`).
* While reads are cut between tokens, the two width measures differ on a stored line exactly when a
  visible character directly follows an escape that does not end in a letter or `~`
  (`StoredLines.SessionWidths`), as it does in the line stored for `ESC ( 0 x`
  (`CutEscapes.CharsetMiscounted`). A cut inside an escape can store an OSC sequence, on which the
  rune count can also be the greater one (`CutEscapes.CutStoresOsc`).
* The two halves of an escape cut by a read are not rejoined. If it is not an OSC sequence, the cut
  shows unless the rest happens to be a row of escapes that are stored (`CutEscapes.CutShowsIff`,
  for any rest; `CutEscapes.EscapeInEscape` is such a rest). The rest of an OSC sequence is obeyed
  as if it stood alone (`CutEscapes.OscRestObeyed`): what that shows can depend on the screen
  (`CutEscapes.OscReturnDepends`), but text left over that has no control characters always shows, and so
  does a missing ESC and backslash, while a missing BEL alone does not (`CutEscapes.OscBelCut`,
  `CutEscapes.OscStCut`). At token boundaries reads can be cut freely.
* The `ListUnits` header counts 7 bytes of trailing padding in its declared length, which the D-Bus
  Specification excludes; a strict decoder rejects it (`DbusMessages.ListUnitsNeedsLeniency`). The
  unit action messages need no padding there, so a strict decoder reads them.
* The parser returns exactly the units of the seven kinds it looks for if and only if the name,
  description and states of those units are printable and 3 to 512 characters long, and no other
  string of the message in record position ends in a unit suffix (`DbusRoundTrip.ReplyRoundTripIff`,
  with `ReadsRight` as the condition). The strings may be any that a message can hold, but for those
  that end in a byte of 3 to 5, which with the next length word can be taken for a string
  (`DbusMisread.EtxReadAsString`). A description in another script, for example, is passed over, so
  the record of its unit is never among the results (`DbusRoundTrip.IncompleteMissing`). A unit
  whose description is its own name, alone in its reply, comes out twice (`DbusMisread.ReadTwice`).
* The process tree shows every process exactly when no parent links form a cycle of two or more
  (`ProcessView.PermutationIffNoCycle`). Two processes that are each other's parent are never shown
  (`ProcessView.MutualParentsHidden`).
* `View` of the dashboard places the rectangles for the mouse before it clamps the scroll offset, so
  they lie over the panels exactly when the offset was within the content already
  (`Dashboard.BoxesMatchScreenIff`). The up key at the top takes it out
  (`Dashboard.UpAtTopMisplaces`).
* Of several custom CPU rules with one label only the last decides; an earlier one that fires can be
  cleared at once (`AlertVerdicts.SharedLabelHides`).

## Model

| member | source | states |
|---|---|---|
| TokenBoundaries.OneEscape | internal/ui/tabs/terminal.go:235-275 | a string that is one escape is one token and shows nothing |
| TokenBoundaries.EscAppend | internal/ui/tabs/terminal.go:235-275 | a closed escape is not affected by what follows; an unclosed one swallows it |
| TokenBoundaries.CutClosed | internal/ui/tabs/terminal.go:235-275 | an escape cut off at its end is the same escape, closed or not as before |
| TokenBoundaries.TokensJoin | internal/ui/tabs/terminal.go:235-275 | scanning the joined tokens gives the tokens back, and the text is closed if and only if all of them are |
| TokenBoundaries.TokensAppend | internal/ui/tabs/terminal.go:235-275 | behind a closed prefix the scan starts afresh |
| TokenBoundaries.BoundaryIffClosed | internal/ui/tabs/terminal.go:235-275 | a cut is a token boundary if and only if nothing follows it or the prefix is closed |
| LineEdit.ParseEscape | internal/ui/tabs/terminal.go:235-275 | returns the escape that starts at an index, or nothing |
| LineEdit.CountVisible | internal/ui/tabs/terminal.go:360-375 | the loop counts the visible characters of the tokens |
| LineEdit.OverwriteAtCol | internal/ui/tabs/terminal.go:379-410 | the loop sets one glyph of the tokens, or pads and appends |
| LineEdit.TruncateAtCol | internal/ui/tabs/terminal.go:413-441 | the loop keeps the first glyphs and every escape |
| LineEdit.OverwriteEffect | internal/ui/tabs/terminal.go:379-410 | one visible cell is set, with blanks before it if needed, and no escape moves |
| LineEdit.OverwriteKeepsEscapesIff | internal/ui/tabs/terminal.go:377-410 | escapes stay where they are if and only if the line is closed or the column occupied |
| LineEdit.TruncateEffect | internal/ui/tabs/terminal.go:413-441 | visible length min(old, col); every escape is kept, those beyond the cut move to it |
| LineEdit.UnclosedSwallows | internal/ui/tabs/terminal.go:379-410 | text appended behind an unclosed escape always changes the escapes |
| LineWidth.RuneLen | internal/ui/tabs/terminal.go:713-730 | the loop counts the characters outside what it takes for escapes |
| LineWidth.TruncateRunes | internal/ui/tabs/terminal.go:733-757 | the loop cuts the string where the count is used up |
| LineWidth.ClipEffect | internal/ui/tabs/terminal.go:733-757 | the result is a prefix of length min(n, count), and no longer prefix counts so few |
| StoredLines.SessionNoOsc | internal/ui/tabs/terminal.go:287-311 | while no read is cut inside an escape, no stored line ever holds an OSC sequence |
| StoredLines.SessionWidths | internal/ui/tabs/terminal.go:360-375 | on every line stored in any such session the rune count never exceeds the visible length, and equals it if and only if no visible character directly follows an escape the letter scan overruns |
| CutEscapes.CharsetMiscounted | internal/ui/tabs/terminal.go:713-730 | the line stored for ESC ( 0 x has one visible character and a rune count of 0 |
| LineWidth.WidthsAgreeOnCsi | internal/ui/tabs/terminal.go:713-730 | on complete CSI sequences the two measures agree |
| ScrollWindow.FitLines | internal/ui/tabs/terminal.go:518-528 | the loop cuts every line that is too wide |
| ScrollWindow.CutWindow | internal/ui/tabs/terminal.go:541-555 | the slice and the padding loop give the window rows |
| ScrollWindow.DrawCursor | internal/ui/tabs/terminal.go:557-564 | the cursor is drawn into the last row that is not empty |
| ScrollWindow.WindowShowsBuffer | internal/ui/tabs/terminal.go:530-555 | exactly the content height of rows: consecutive buffer lines cut to the width, then empty rows |
| Terminal.Terminal.constructor | internal/ui/tabs/terminal.go:58-64 | one empty line, column 0 |
| Terminal.Terminal.Restart | internal/ui/tabs/terminal.go:123-127 | a restart empties the lines and leaves the column |
| Terminal.Terminal.ProcessOutput | internal/ui/tabs/terminal.go:278-357 | the byte loop runs the tokens of the data and trims; one to `maxLines` lines, column not negative |
| Terminal.Terminal.InterpretEscape | internal/ui/tabs/terminal.go:287-311 | the cases of an escape: swallow, clear, erase, left, right, store |
| Terminal.Terminal.InterpretChar | internal/ui/tabs/terminal.go:317-350 | the cases of a character: newline, return, backspace, tab, bell, write |
| Terminal.Terminal.VisibleRows | internal/ui/tabs/terminal.go:517-565 | clamps the offset and returns the window, with the cursor when focused at the bottom |
| CellTerminal.StepRefines | internal/ui/tabs/terminal.go:284-351 | one token does to what is shown what the cell terminal does to its cells |
| CellTerminal.RunRefines | internal/ui/tabs/terminal.go:284-351 | so do any number of tokens |
| CellTerminal.ProcessRefines | internal/ui/tabs/terminal.go:278-357 | one read, even cut inside an escape, shows what the trimmed cell terminal shows |
| TerminalSession.ChunkIndependence | internal/ui/tabs/terminal.go:278-357 | a read cut at a token boundary leaves the same lines and column as the two reads, despite the trim |
| TerminalSession.ProcessBounds | internal/ui/tabs/terminal.go:353-356 | between one line and the limit after every read |
| TerminalSession.SessionIsOneRead | internal/ui/tabs/terminal.go:93-95 | any number of reads cut between tokens equal one read of everything |
| TerminalSession.SessionRefines | internal/ui/tabs/terminal.go:278-357 | from a new terminal a whole session shows what the cell terminal shows, trimmed once |
| TerminalSession.Serve | internal/ui/tabs/terminal.go:93-95 | the terminal object itself, under any reads: the session's buffer, and the cell terminal's screen if the reads are cut between tokens |
| TokenEffects.RunSpecials | internal/ui/tabs/terminal.go:284-351 | output adds no more ESC and obeyed control characters to the last line than the escapes it stores hold |
| CutEscapes.CutShowsIff | internal/ui/tabs/terminal.go:278-357 | when a read ends inside an escape that is not an OSC, and the next one brings its rest, whatever that is made of, the screen is that of the uncut read if and only if the rest is itself a row of stored escapes |
| CutEscapes.OscRestObeyed | internal/ui/tabs/terminal.go:253-266 | of an OSC cut behind its bracket the rest is obeyed as if it stood alone; uncut nothing changes |
| CutEscapes.OscCutShowsIff | internal/ui/tabs/terminal.go:253-266 | an OSC cut so that nothing in the rest moves the cursor back or off the line, or clears: the screen is that of the uncut read if and only if the rest is only BEL and OSC sequences |
| CutEscapes.OscBelCut | internal/ui/tabs/terminal.go:254-256 | of an OSC that BEL ends, with no control characters in what was left over of its text, the cut shows if and only if some text was |
| CutEscapes.OscStCut | internal/ui/tabs/terminal.go:257-260 | of an OSC that ESC and a backslash end, with no control characters in what was left over of its text, the cut always shows |
| CutEscapes.EscapeInEscape | internal/ui/tabs/terminal.go:287-311 | an instance that does not show: ESC [ and, in the next read, ESC [ A |
| CutEscapes.OscReturnDepends | internal/ui/tabs/terminal.go:287-311 | with a carriage return in the rest of an OSC the cut shows if and only if the column is not 0 |
| CutEscapes.CutInsideEscapeShows | internal/ui/tabs/terminal.go:217-231 | an instance: ESC and 7 in two reads differ from ESC 7 in one |
| CutEscapes.CutLeavesOpenLine | internal/ui/tabs/terminal.go:379-410 | a read cut inside ESC [ leaves a line on which an overwrite extends the escape |
| CutEscapes.CutStoresOsc | internal/ui/tabs/terminal.go:287-311 | ESC and ]xy in two reads leave a line that is one OSC sequence, where the rune count exceeds the visible length |
| DbusBuild.AppendZerosTo | internal/services/systemd/dbus.go:121-125 | the padding loop appends the zeros up to the alignment |
| DbusBuild.RoundUpLeast | internal/services/systemd/dbus.go:101-104 | that is the least aligned size |
| DbusWire.WordDigits | internal/services/systemd/dbus.go:137-141 | the four little-endian bytes hold the value modulo 2^32 |
| DbusBuild.AppendHeaderField | internal/services/systemd/dbus.go:121-135 | appends an aligned header struct with a string or path value |
| DbusBuild.AppendSignatureField | internal/services/systemd/dbus.go:320-331 | appends the aligned signature struct with its one-byte length |
| DbusBuild.WriteFrame | internal/services/systemd/dbus.go:303-315 | fixed header, declared lengths, header array, body |
| DbusBuild.BuildUnitActionMsg | internal/services/systemd/dbus.go:269-316 | the appends and padding loops give the action message |
| DbusBuild.BuildListUnitsMsg | internal/services/systemd/dbus.go:86-118 | the appends and padding loops give the ListUnits message |
| DbusDecode.FieldsRead | internal/services/systemd/dbus.go:290-296 | an independent reader gets every header field back |
| DbusDecode.ActionHeaderSize | internal/services/systemd/dbus.go:289-301 | the action header ends aligned, so no padding enters its declared length |
| DbusMessages.ActionRoundTripIff | internal/services/systemd/dbus.go:269-316 | decoding gives back the five fields and both strings if and only if header and body fit 32-bit lengths; otherwise it fails |
| DbusMessages.ActionAlignment | internal/services/systemd/dbus.go:269-316 | each of the five header structs on an 8-byte offset and its value on a 4-byte offset, the body on an 8-byte offset, its second string on a 4-byte offset |
| DbusMessages.ActionMessagesDiffer | internal/services/systemd/dbus.go:269-316 | different method, unit or mode, different message |
| DbusDecode.StrictStopsAtPad | internal/services/systemd/dbus.go:101-104 | padding inside the declared array length stops a decoder that follows the specification |
| DbusMessages.ListUnitsNeedsLeniency | internal/services/systemd/dbus.go:86-118 | the declared header length is 7 too long: a lenient decoder reads the four fields, a strict one rejects |
| DbusScan.LooksLikeString | internal/services/systemd/dbus.go:173-193 | the tests at one offset: length word, bounds, NUL, printable, at least three characters |
| DbusScan.CollectStrings | internal/services/systemd/dbus.go:170-196 | the scan loop collects the strings of the offsets where it fires |
| DbusScan.CheckUnitName | internal/services/systemd/dbus.go:203-209 | one of the seven suffixes |
| DbusScan.ExtractUnitsFromBytes | internal/services/systemd/dbus.go:169-241 | scan, then grouping of each unit name with the four strings behind it |
| DbusLayout.ScanLayout | internal/services/systemd/dbus.go:170-196 | on any sequence of strings without NUL, zeros, header field fronts, signatures and free words, the scan finds exactly the printable strings of 3 to 512 characters: it never fires on padding, inside a word or inside a string it passes over, if no string ends in a byte of 3 to 5 |
| DbusRoundTrip.StringsRoundTrip | internal/services/systemd/dbus.go:170-196 | for every list of printable strings of length 3 to 512 the scan of their marshalling is the list |
| DbusEnvelope.MessageScan | internal/services/systemd/dbus.go:164-196 | the scan of a whole reply message, fixed header and header fields in any order included, is the list of its strings that the scan keeps |
| DbusRoundTrip.GroupRecordsIff | internal/services/systemd/dbus.go:200-239 | grouping returns exactly the records of the units of known kinds if and only if nothing but their names starts a record |
| DbusRoundTrip.ReplyRoundTripIff | internal/services/systemd/dbus.go:164-241 | marshalling units of any kind into a reply message and parsing it returns one record per unit of a known kind if and only if the strings of those records are ones the scan keeps and nothing else starts a record |
| DbusRoundTrip.IncompleteMissing | internal/services/systemd/dbus.go:184-193 | a unit with a name, description or state that the scan passes over never gets its record |
| DbusMisread.ReadTwice | internal/services/systemd/dbus.go:200-239 | alone in its reply, a unit whose description is its own name comes out twice, the second time with shifted fields |
| DbusMisread.ScopeReadTwice | internal/services/systemd/dbus.go:200-239 | there is such a reply |
| DbusMisread.EtxReadAsString | internal/services/systemd/dbus.go:170-196 | a string that ends in the byte 3, two zeros of padding and the length of a string of about 2 MiB are taken for a string of three spaces |
| Ancestry.TableOrder | internal/services/process/tree.go:17-23 | the PID index does not depend on the order of the list |
| Ancestry.DepthBound | internal/services/process/tree.go:38-49 | a depth is less than the number of processes |
| Ancestry.AllRootedIffNoCycle | internal/services/process/tree.go:27-35 | every process reaches a root if and only if no process is its own ancestor |
| Preorder.PreMember | internal/services/process/tree.go:60-83 | a listing of siblings holds exactly what is under one of them |
| Preorder.ListingOutline | internal/services/process/tree.go:57-87 | each rooted process exactly once and no other; ancestors first, siblings ascending, subtrees contiguous |
| Preorder.NearestShallowerIsParent | internal/services/process/tree.go:60-83 | between a parent and a child every entry is at least as deep as the child |
| Preorder.ListingCompleteIff | internal/services/process/tree.go:27-35 | all processes are listed if and only if there is no cycle |
| TreeDrawing.LabelShape | internal/services/process/tree.go:60-76 | 4*(d+1) characters: a pipe at a level if and only if that ancestor has a later sibling, a corner if and only if the process has none |
| TreeDrawing.ForestDraws | internal/services/process/tree.go:57-87 | the flattened forest draws the listing entry by entry with these labels |
| ProcessTree.MakeNodes | internal/services/process/tree.go:17-23 | one fresh node per process, by PID |
| ProcessTree.LinkNodes | internal/services/process/tree.go:25-35 | each node is appended to its parent's children, or the roots, in input order |
| ProcessTree.SortNodes | internal/services/process/tree.go:37-49 | in place: children ascending by PID and depths set, in the whole forest, keeping what is finished |
| ProcessTree.BuildProcessTree | internal/services/process/tree.go:16-53 | the nodes built represent the forest of the process list |
| ProcessTree.FlattenTree | internal/services/process/tree.go:57-87 | the recursive walk over the nodes is the walk over the trees they represent |
| ProcessView.TreeView | internal/ui/tabs/process.go:381-384 | build and flatten give the flat tree |
| ProcessView.FlatTreeFaithful | internal/services/process/tree.go:16-87 | for distinct PIDs the result draws an outline of exactly the rooted processes |
| ProcessView.ParentAbove | internal/services/process/tree.go:57-87 | the nearest earlier entry that is less deep is the parent, one level up |
| ProcessView.OrderIndependence | internal/services/process/tree.go:27-51 | permuting the input leaves the result as it is |
| ProcessView.PermutationIffNoCycle | internal/services/process/tree.go:27-35 | the result is a permutation of the input if and only if there is no cycle of two or more |
| ProcessView.MutualParentsHidden | internal/services/process/tree.go:27-35 | two processes that are each other's parent are not shown, in any list |
| ProcessView.MutualPairShowsNothing | internal/services/process/tree.go:27-35 | of such a pair alone nothing is shown |
| Bus.Channel.TrySend | internal/bus/bus.go:63-67 | appended, or dropped when 16 are pending |
| Bus.EventBus.Subscribe | internal/bus/bus.go:27-33 | a fresh open channel at the end of the topic's list, nothing else changed |
| Bus.EventBus.Unsubscribe | internal/bus/bus.go:36-55 | removes and closes the channel, drops an emptied topic, and does nothing for an unknown channel |
| Bus.EventBus.Publish | internal/bus/bus.go:59-69 | every subscriber of the topic is offered the event, by its own buffer alone |
| Bus.EventBus.Close | internal/bus/bus.go:72-81 | every channel closed once, no topic left |
| BusSafety.KeepInv | internal/bus/bus.go:27-81 | every atomic step of every thread keeps the invariant of lock, map and channels |
| BusSafety.Safety | internal/bus/bus.go:27-81 | over all interleavings: no send on a closed channel, no second close, writers alone, each mapped channel open, once, in one topic, no empty list |
| BusDelivery.KeepHistory | internal/bus/bus.go:59-69 | every step keeps each channel's record of what it was offered, holds and has delivered |
| BusTopics.KeepOwnTopics | internal/bus/bus.go:59-69 | every step keeps it that a channel is offered only events of threads that publish on its topic |
| BusDelivery.Delivery | internal/bus/bus.go:59-69 | over all interleavings: of an unbroken run of the events of each publisher on its topic since the subscription, in order and without duplicates, exactly those the buffer let through; nothing of other topics |
| BusDelivery.NothingLostIff | internal/bus/bus.go:63-67 | nothing is lost if and only if the receiver never falls a whole buffer behind |
| BusDelivery.SlowNeighbours | internal/bus/bus.go:63-67 | taking away everything the other receivers do changes nothing for a subscriber or any thread |
| BusProgress.StepProgress | internal/bus/bus.go:27-81 | every step inside a call leaves less to do |
| BusProgress.SomeReady | internal/bus/bus.go:59-69 | while a thread is in a call some thread can step, and a publisher in its loop always can |
| BusProgress.Settles | internal/bus/bus.go:27-81 | from every reachable state all calls can return |
| Shutdown.KeepSound | internal/registry/registry.go:38-92 | every move of starter, services, bridges, clients and `StopAll` keeps the invariant |
| Shutdown.StopAllLeavesNone | internal/registry/registry.go:38-92 | the wait group counts the live goroutines; when `StopAll` has returned none is left |
| Shutdown.EndToEnd | internal/registry/registry.go:45-67 | what a subscriber got of a service is in emission order without duplicates, what is to come is the output channel in order, and of a service with another topic it got nothing |
| Shutdown.Winds | internal/registry/registry.go:82-92 | every shutdown move leaves less of the shutdown |
| Shutdown.CanWind | internal/registry/registry.go:53-67 | until `StopAll` returns a shutdown move is possible; bridges cannot deadlock |
| Shutdown.StopAllReturns | internal/registry/registry.go:82-92 | from every reachable state after the call the shutdown moves lead to the return |
| PanelLayout.RemovePanel | internal/ui/tabs/dashboard.go:241-257 | the loops drop the panel and emptied rows, and say whether it was there |
| PanelLayout.InsertPanel | internal/ui/tabs/dashboard.go:272-300 | the loops put the panel next to the target |
| PanelLayout.DropLands | internal/ui/tabs/dashboard.go:218-301 | the panel ends directly left, right, above or below the target; everything else is as after its removal |
| PanelLayout.DropConserves | internal/ui/tabs/dashboard.go:218-301 | every panel once, no empty row, the others in their old order |
| PanelLayout.DropsConserve | internal/ui/tabs/dashboard.go:314-322 | after any number of drops every panel once and no empty row, so the width can be divided |
| Dashboard.Dashboard.constructor | internal/ui/tabs/dashboard.go:84-92 | the default layout has every panel once |
| Dashboard.Dashboard.FindPanelAt | internal/ui/tabs/dashboard.go:209-216 | the one panel that is hit, whatever the order of the map |
| Dashboard.Dashboard.HandleDrop | internal/ui/tabs/dashboard.go:218-301 | the drop by the zone of the point, keeping the layout valid |
| Dashboard.Dashboard.Press | internal/ui/tabs/dashboard.go:190-194 | the panel below the mouse becomes the drag source |
| Dashboard.Dashboard.Release | internal/ui/tabs/dashboard.go:195-203 | a drop on another panel, otherwise nothing; the drag ends |
| Dashboard.Dashboard.View | internal/ui/tabs/dashboard.go:303-403 | records the rectangles, clamps the offset, shows as many lines as fit |
| Dashboard.PlaceRows | internal/ui/tabs/dashboard.go:308-363 | the loops place the rectangles row by row |
| Dashboard.BoxesApart | internal/ui/tabs/dashboard.go:308-363 | whatever the sizes of the panels, no two rectangles overlap |
| Dashboard.BoxesMatchScreenIff | internal/ui/tabs/dashboard.go:310-392 | the rectangles match what is shown if and only if the offset was within the content |
| Dashboard.Dashboard.ScrollBy | internal/ui/tabs/dashboard.go:177-189 | each scroll key moves the offset, without a bound |
| Dashboard.UpAtTopMisplaces | internal/ui/tabs/dashboard.go:177-189 | the up key at the top leaves the view as it is and puts every rectangle of the next one a line too low, for every layout, rendering and window |
| Sparkline.Sparkline.constructor | internal/ui/styles/sparkline.go:26-41 | capacity at least one, automatic scale without a maximum |
| Sparkline.Sparkline.Push | internal/ui/styles/sparkline.go:44-50 | the ring holds the last min(n, cap) values pushed |
| Sparkline.Sparkline.Ordered | internal/ui/styles/sparkline.go:107-118 | these values in push order |
| Sparkline.Resample | internal/ui/styles/sparkline.go:123-160 | the loops give padding or bucket means |
| Sparkline.FloorEdge | internal/ui/styles/sparkline.go:147-151 | the truncated products of the bucket size are the exact bucket borders |
| Sparkline.EdgesClimb | internal/ui/styles/sparkline.go:146-154 | every bucket holds a sample and the last one ends with the data |
| Sparkline.OneBucket | internal/ui/styles/sparkline.go:146-154 | every sample lies in exactly one bucket |
| Sparkline.ResampleConserves | internal/ui/styles/sparkline.go:144-160 | the columns weighted by bucket size add up to the data |
| Sparkline.ResampleWithin | internal/ui/styles/sparkline.go:144-160 | every column lies between the least and the greatest sample |
| Sparkline.Sparkline.Render | internal/ui/styles/sparkline.go:53-104 | draws the resampled contents, nothing for an empty ring |
| Sparkline.BlockRange | internal/ui/styles/sparkline.go:91-100 | block indices 0 to 7; the tallest if and only if the value reaches the top of the scale |
| Sparkline.BlocksMonotone | internal/ui/styles/sparkline.go:91-100 | a greater value is never drawn lower |
| Sparkline.DrawnShape | internal/ui/styles/sparkline.go:83-103 | one cell per column, dim if and only if the value is negative |
| AlertVerdicts.KeysApart | internal/services/alerts/alerts.go:123-259 | no two sources share a key |
| AlertVerdicts.LastReadingDecides | internal/services/alerts/alerts.go:93-113 | over a run the last reading with a verdict for a key decides it |
| AlertVerdicts.OwnKeysOnly | internal/services/alerts/alerts.go:118-280 | a check never touches the keys of another source |
| AlertVerdicts.CpuDecides | internal/services/alerts/alerts.go:118-148 | critical, warning or absent by the last CPU reading |
| AlertVerdicts.DiskDecides | internal/services/alerts/alerts.go:216-247 | critical, warning or absent by the last sample of the mount point |
| AlertVerdicts.CustomDecides | internal/services/alerts/alerts.go:150-168 | the last CPU rule of a label, by the last CPU reading |
| AlertVerdicts.SharedLabelHides | internal/services/alerts/alerts.go:150-168 | two rules of one label: the first fires and does not show |
| Alerts.Start | internal/services/alerts/alerts.go:87-116 | over any run from a new store, with snapshots received in between: the last verdict on each key is active, the history is the newest alerts of the run up to the limit, and each snapshot received shows, at the end still, the active alerts and history of an earlier moment, in order |
| Alerts.Service.SetAlert | internal/services/alerts/alerts.go:282-295 | active entry set, history one longer within the limit, snapshot published |
| Alerts.Service.Prepend | internal/services/alerts/alerts.go:285-292 | newest first in a fresh array, so published histories stay as they were |
| Alerts.Service.ClearAlert | internal/services/alerts/alerts.go:297-304 | removed and published if present, otherwise nothing |
| Alerts.Service.PublishLocked | internal/services/alerts/alerts.go:306-320 | every active alert once, and the history; dropped when the channel is full |
| Alerts.Service.CheckCPU | internal/services/alerts/alerts.go:118-169 | the verdicts on a CPU reading and its custom rules, in order |
| Alerts.Service.CheckMemory | internal/services/alerts/alerts.go:185-214 | the verdict on a memory reading |
| Alerts.Service.CheckDisk | internal/services/alerts/alerts.go:216-247 | the verdicts on every disk |
| Alerts.Service.CheckThermal | internal/services/alerts/alerts.go:249-280 | the verdicts on every zone |
| Alerts.Service.Reload | internal/services/alerts/alerts.go:85 | a new configuration keeps the state; the history stays a prefix of the log |
| SignalDialog.NaturalNumber | internal/ui/tabs/process.go:355 | a printed PID read back is the PID |
| SignalDialog.SendSafe | internal/ui/tabs/process.go:310-349 | one name check; if it passes, one signal to the target if it is found and one audit record if auditing is wired; if not, neither |
| SignalDialog.KeySafe | internal/ui/tabs/process.go:147-297 | every key keeps mode, target, input, safety and the count of records, never rewrites what was done, and adds one attempt at the most |
| SignalDialog.SessionSafe | internal/ui/tabs/process.go:117-360 | over all keys and refreshes: signals only to the process the menu was opened on, right after a successful name check, SIGKILL only with its PID typed, and exactly as many audit records as attempts past the check |
| SignalDialog.KeyEffects | internal/ui/tabs/process.go:147-297 | all a key can do to the outside: attempt the signal chosen with Enter, or SIGKILL with Enter on the right PID, or open the menu on the row under the cursor with permission |
| ProcessTab.Serve | internal/ui/tabs/process.go:117-145 | under any sequence of keys and refreshes the tab stays consistent, everything it has done is safe, and every attempt has its audit record |
| ProcessTab.ProcessTab.Press | internal/ui/tabs/process.go:147-297 | the key handler with its fields is the dialog function; it stays consistent and attempts one signal at the most |
| ProcessTab.ProcessTab.Update | internal/ui/tabs/process.go:117-145 | a refresh moves at most the cursor and stays consistent |
| ProcessTab.ProcessTab.Start | internal/ui/tabs/process.go:299-308 | opens the dialog on the row under the cursor |
| ProcessTab.ProcessTab.Send | internal/ui/tabs/process.go:310-349 | check, signal and audit record as the dialog function says |
| ProcessTab.ProcessTab.Confirm | internal/ui/tabs/process.go:351-360 | SIGKILL if the typed digits are the PID; the dialog ends |

## Left out

- Reading and writing the shell, pseudo terminals and key encoding; the terminal starts from the characters of a read.
- UTF-8: a character is one symbol. Multi-byte characters behind ESC, which the byte scanner splits, are not modelled.
- Terminal.Terminal.VisibleRows: the rows of `View` only; header, scroll indicator, styling and the screens before the shell runs are not modelled.
- Sockets, D-Bus authentication and reading a reply in pieces; the parser starts from a byte sequence.
- DbusRoundTrip.ReplyRoundTripIff: strings that end in a byte of 3 to 5, header arrays of 8 KiB or more, and message serials whose top byte is that of a printable character; a job type is a printable word of 3 to 255 characters. Messages of more than 128 MiB are not valid under the D-Bus Specification; other messages that arrive in the same read are not part of this model.
- ProcessTree.SortNodes: `sort.Slice` is a library call and stands as a function on the nodes; its in-place exchanges are not modelled.
- Process lists with duplicate PIDs: `/proc` lists each PID once, and with duplicates the nodes can form a cyclic graph.
- The table order of the process tab: reversing `less` gives no strict order, so nothing is claimed about ties.
- BusSafety.Safety: a thread publishes on one topic; one that uses several appears as one thread for each. Taking the lock and the first change of the map are one step.
- Shutdown.StopAllLeavesNone: `StopAll` is called after `StartAll` has returned, as the program does; an earlier call is not modelled.
- Shutdown.StopAllReturns: services return after the cancellation, and no client calls or emissions come in between; a service that ignores the cancellation keeps `StopAll` waiting in the program, too.
- Panics inside a service: `recover` makes them the return they are modelled as.
- Registering, reloading and health of services: one-line loops under the lock.
- Dashboard.Dashboard.View: the contents of the panels; their heights, widths and whether they draw at all are parameters, and the number of lines is given.
- Snapshots of the dashboard: what the panels show.
- Sparkline.Resample: floating-point rounding of bucket borders and means, and colours.
- Alerts.Service.CheckCPU: messages and timestamps of alerts, and a configuration that changes in the middle of one check.
- End-to-end delivery of alerts: the monitor is started outside the registry, so its channel is not bridged to the bus.
- ProcessTab.ProcessTab.Press: the text of the filter and the entries of the sort menu; the rows they lead to are a parameter of every key.
- The audit file, the name check under `/proc` and the signal itself are answers of the system.
- Collectors, package, firewall and init back ends, Docker, exporter, themes, help and resolver tables: thin layers over input and output.
