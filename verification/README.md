# monux: verified models

monux shares one keyboard, mouse and clipboard between machines. This project models the parts of it
that carry invariants over long runs, and proves them in Dafny 4.11. `dafny verify dfyconfig.toml`
checks everything.

| files | what they model |
|---|---|
| `HistoryText`, `HistoryRuns`, `TaggedRuns`, `HistoryStack`, `HistoryBlocks`, `HistoryHolders` | the comment text between two config keys, line by line: runs of `# was:` lines, a key's own stack, the blocks an `unset` leaves, cutting one out and attaching one |
| `HistoryLine`, `HistoryTidy`, `Decimals`, `Calendar`, `Timestamps` | the same text as characters: reading and rendering one line, splitting a text into lines, the blank-line loop, timestamps and the civil date behind them |
| `ConfigSection`, `ConfigRefinement`, `ConfigHistory`, `ConfigRun`, `ConfigUndo`, `ConfigDocument` | `set`, `unset` and `revert` on a document of sections: every run refines one bounded undo stack per key; the document as an object edited in place |
| `ConfigText`, `ConfigFile`, `ConfigCreation` | the same commands on the file, read anew and written back by each of them; what creating a missing section does to the others |
| `ConfigEffects`, `ConfigNotes` | what one command does to its own key, in values and stamps; that the user's own comment lines survive every command |
| `EditDistance` | the two-row edit distance and the key suggestion |
| `BulkStream`, `BulkFetches`, `BulkDelivery`, `BulkConnection` | the client's bulk stream: frames and raw payloads out of arbitrary chunks, replies matched with fetches and delivered to them |
| `EventStream`, `EventConnection`, `InputConnection`, `DeltaScaler`, `DeferredAnnounce` | the client's events stream: input coalesced into device writes, deltas scaled with a carried remainder, the deferred clipboard announcement |
| `LinkMonitor` | link-quality notifications |
| `TraySupervisor`, `TraySlots`, `TrayRespawns` | the tray indicator's supervisor as a transition system: where every process is, when the slot is empty and what fills it, the respawn budget |
| `KnownServers`, `ServerRecency` | the remembered-servers file and its recency list |
| `PeerHub` | the peer-diagnostics hub |
| `Seqs`, `Wrappers` | facts about sequences, the option type |

Objects the program updates in place are classes (`ConfigDocument.Document`, `BulkConnection.Connection`,
`InputConnection.Connection`, `DeltaScaler.Scaler`, `LinkMonitor.Monitor`, `DeferredAnnounce.Timer`,
`TraySupervisor.Shared`, `PeerHub.DiagnosticsHub`). Their methods are proved equal to steps of a
specification on values, and the theorems about whole runs are lemmas about those steps.

How the models are set up:

- A comment text is a sequence of newline-terminated lines and an unterminated last one. `HistoryTidy`
  and `HistoryLine` tie that view to strings: parsing a text and showing it again loses nothing, and
  the character loop that tidies blank lines is the line-level tidying.
- Each command reads the file, edits it and writes it. The TOML library is taken to hand back the
  characters it wrote above each key and header; `ConfigFile.CommandsAreOneRun` shows that the lines read
  from them are the lines that were written, so the theorems about one document hold of the file.
- A section owns its keys and the text after its last key: the header prefix of the next section, or
  the document's trailing text. Which section a block at the end belongs to is decided by position.
- TOML validity, the registry (which keys exist, which values they take, when two values are the
  same), the frame decoders, address text and the white-space and control-character classes are
  parameters. Time and process exits are inputs.
- Orphan blocks without a tag and sections whose blocks run into each other are outside
  `ConfigRefinement.WellFormed`; `ConfigRun.FreshIsSound` shows that every file without history is
  inside it, and every command keeps a file inside it.

Results that differ from what the documentation suggests, each with its exact condition:

- Cutting a block out merges its neighbours exactly when a history line stands directly above and one
  directly below what is cut (`HistoryBlocks.ExciseRemovesOneBlock`).
- A revert loses an entry exactly when the key is set and its stack, written by hand, is longer than
  the cap (`ConfigUndo.RevertPermutes`).
- A value banked from the year 10000 on is written but not read back (`ConfigText.BankedReadsBack`,
  `ConfigFile.LateStampIsLost`).
- A `set` that creates a missing section takes the history in the file's trailing text away from the
  section that was last; every other key keeps its own exactly when there is none there
  (`ConfigCreation.CreationKeeps`).
- A remembered host named `-` is read back as unnamed (`KnownServers.SaveThenLoad`).
- Once the guard's drop took the child, the slot stays empty exactly when no show had passed its
  shutdown check before and is still on its way (`TraySlots.DropIsFinal`, `TraySlots.ShowOutlivesDrop`).
- The monitor stores a child with shutdown set exactly when the flag was set between its check and its
  store (`TraySlots.StoresInShutdown`).
- A visible supervisor can end up with an empty slot that only a show refills: the steps that lead there
  (`TraySlots.StrandedExactly`), a run (`TraySlots.StrandingHappens`), and when an empty slot is refilled
  without one (`TraySlots.OnlyRespawnFills`).
- Between two resets the monitor can store one child more than it is granted exactly when a respawn
  granted before can still be carried out (`TrayRespawns.ExtraRespawn`), and never more than one
  (`TrayRespawns.StoresBetweenResets`).

## Model

| member | source | states |
|---|---|---|
| HistoryRuns.ScanRuns | src/config.rs:926-952 | the one-pass scan returns the runs, which `RunsAreMaximal` characterises independently |
| HistoryRuns.RunsAreMaximal | src/config.rs:924-952 | a run is returned if and only if it is a maximal stretch of history lines; the runs are disjoint and in file order |
| HistoryStack.SplitBottomStack | src/config.rs:899-922 | taking history lines off the bottom finds the stack directly above the key, the head above it and the key's indent |
| HistoryStack.RenderAfterSplit | src/config.rs:899-922 | rendering what was split off restores the prefix if and only if its unterminated last line is white space, that is when every line above the indent ends in a newline |
| HistoryStack.SplitAfterRender | src/config.rs:988-998 | a stack rendered below a head that does not end in history is exactly the stack split off again, with that head and indent |
| HistoryStack.PushedStack | src/config.rs:977-982 | pushing keeps head and indent and makes the stack the newest five of the new entry and the old stack |
| HistoryStack.OrphansAreInTheHead | src/config.rs:954-973 | the orphan runs of a key's prefix are the runs of the head its own stack is split from; above an unknown key they are all runs |
| TaggedRuns.BlockOfRun | src/config.rs:1055-1062 | the k-th block of a text is its k-th run together with the unset tag on the line directly above it |
| HistoryBlocks.RunBlockRange | src/config.rs:1166-1184 | the range of run k, none for a missing run: the comments directly above it and one blank separator below it, never an unterminated last line |
| HistoryBlocks.ExciseRun | src/config.rs:1188-1202 | the block is the run with its comments, its trailing newlines normalised, and the text is what stood above and below it, tidied; a missing run changes nothing |
| HistoryBlocks.ExciseRemovesOneBlock | src/config.rs:1186-1202 | the text's blocks afterwards are the old ones without the k-th if and only if the cut did not bring two history lines together |
| HistoryBlocks.PiecesOfBlock | src/config.rs:1188-1202 | what is cut out is comments above exactly the entries of block k, its tag, if any, the last comment |
| HistoryBlocks.SqueezeKeepsBlocks | src/config.rs:1197-1200 | tidying blank lines changes no block and no tag attribution |
| HistoryHolders.ExciseAboveStack | src/config.rs:1188-1202 | cutting a block out above a key leaves the key's own stack and indent untouched |
| HistoryHolders.AttachKeepsStack | src/config.rs:1378-1406 | a block attached above a key comes before the key's orphan blocks, apart from them, and the key keeps its stack and indent |
| HistoryHolders.AttachTailHolds | src/config.rs:1344-1374 | a block attached at a section's end comes after the blocks already there, apart from them |
| HistoryHolders.AttachThenExcise | src/config.rs:1166-1202 | a block attached above a key and cut out again comes back whole, and the key's prefix is left as it was but for blank lines at its top and pile-ups of them |
| ConfigNotes.NotesSurvive | src/config.rs:1344-1418 | no run of commands on any document loses, repeats or makes up a line that is neither history nor a tag nor blank |
| ConfigNotes.UnsetKeepsNotes | src/config.rs:1376-1405 | an unset keeps those lines, and in their order unless the key was its section's last |
| ConfigNotes.TailStaysOnTop | src/config.rs:1344-1374 | an unset of the last key leaves the text below it in place, down to its last line that is not blank |
| ConfigNotes.BlockStandsApart | src/config.rs:1358-1365 | a block put above the next section's header has a blank line below it |
| ConfigNotes.IndentGoes | src/config.rs:1598-1603 | the indent of a removed key is not left behind |
| HistoryLine.ParseWasIsShow | src/config.rs:814-825 | a line reads as an entry if and only if it is that entry rendered, with a value that is TOML and a plausible timestamp, even when the value contains the separator |
| HistoryLine.ParseTagIsShow | src/config.rs:802-808 | a line reads as a tag if and only if it is the prefix and a non-empty flag without white space |
| HistoryLine.UnparseParsed | src/config.rs:926-952 | splitting a text into lines, classifying each and showing them gives the text back |
| HistoryLine.ParseUnparsed | src/config.rs:926-952 | lines that read as themselves come back from the text they are written to |
| HistoryTidy.TidyBlankLines | src/config.rs:1197-1200 | the replace loop ends, and leaves the text with exactly those newlines dropped that have two before them |
| HistoryTidy.TidyThenParse | src/config.rs:1197-1200 | tidying characters and then reading lines is reading lines and then dropping blank ones |
| HistoryTidy.RenderStackText | src/config.rs:988-998 | the rendering loop: the head, ended by a newline unless empty, the entries in order, the indent |
| HistoryTidy.RenderedIsSplitOff | src/config.rs:899-922 | on strings: splitting a rendered stack off again yields exactly its entries and indent |
| Calendar.CivilIsGregorian | src/config.rs:879-890 | day 0 is 1970-01-01, every result is a date of the calendar, and each day's date is the successor of the day before's under the leap rule, for every day before and after the epoch |
| Calendar.DatesAreDistinct | src/config.rs:879-890 | two days never have the same date |
| Timestamps.StampsAreValid | src/config.rs:863-876 | a written stamp is accepted on reading if and only if it is before the year 10000 |
| Timestamps.StampsAreDistinct | src/config.rs:863-876 | different seconds are written differently, at any year |
| Timestamps.StampTells | src/config.rs:863-876 | up to the year 9999 a stamp's fields are the date reached from 1970-01-01 day by day, and hour, minute and second of the day |
| Timestamps.StampsAreOrdered | src/config.rs:863-876 | up to the year 9999 later seconds have later stamps, character by character |
| Timestamps.ValidExactly | src/config.rs:828-850 | a string is accepted if and only if it is six fields in their ranges, zero-padded, between the fixed separators |
| ConfigRefinement.FindsOwnBlock | src/config.rs:1150-1161 | an orphan is found for a flag if and only if a block is tagged for it, wherever that is attached, and it is that block |
| ConfigRefinement.Adopts | src/config.rs:1242-1255 | adopting takes the flag's own block, untagged, out of the section; every other block, key, value and stack stays |
| ConfigHistory.SetRefines | src/config.rs:1460-1552 | setting is one step of the key's abstract stack, changes no other key's, and keeps the section well-formed |
| ConfigHistory.UnsetRefines | src/config.rs:1571-1657 | unsetting is one step of the key's abstract stack, found again wherever it was attached, changes no other key's, and keeps the section well-formed; removing an unknown key changes no known one |
| ConfigHistory.RevertRefines | src/config.rs:1674-1784 | reverting, plainly or by timestamp, is one step of the key's abstract stack, changes no other key's, and keeps the section well-formed |
| ConfigEffects.RevertTakesTheEntry | src/config.rs:1683-1738 | a revert makes current the value of the newest entry, or of the newest one with the given stamp, takes exactly that entry out and banks the value it replaces; if the value no longer validates nothing changes |
| ConfigEffects.RevertToNothing | src/config.rs:1681-1700 | a revert to a stamp no entry has, or without history, changes nothing |
| ConfigEffects.SetTakesEffect | src/config.rs:1460-1552 | a set makes its value current and banks the replaced one among the five newest; an invalid or equal value changes nothing |
| ConfigEffects.UnsetTakesEffect | src/config.rs:1612-1644 | an unset leaves no value and banks the one there was; without one nothing changes |
| ConfigEffects.OthersAreUntouched | src/config.rs:1460-1784 | no command changes value or history of another key |
| ConfigRun.RunRefines | src/config.rs:1460-1784 | after any run of commands over many keys and sections of one document each key's text history is the replay of that key's own commands on a value and a stack of at most five |
| ConfigFile.FileRefines | src/config.rs:1460-1784 | the same of the file, which every command reads anew and writes back, for stamps before the year 10000 and values that are TOML |
| ConfigFile.CommandsAreOneRun | src/config.rs:757-768 | reading the file before every command and writing it after gives what the commands give on one document |
| ConfigFile.ApplyIsClean | src/config.rs:1460-1784 | every command, on any document, leaves all comment text such that what is written is read back line by line |
| ConfigText.EntryReadsBack | src/config.rs:814-825 | an entry in the file is read back if and only if its value is TOML on one line and its stamp is plausible |
| ConfigText.BankedReadsBack | src/config.rs:852-876 | a value banked at a given second is read back if and only if that is before the year 10000 |
| ConfigFile.LateStampIsLost | src/config.rs:1525-1543 | after a set of a key without history, the next command sees the replaced value if and only if the stamp is before the year 10000 |
| ConfigCreation.CreationKeeps | src/config.rs:1316-1338 | creating a section keeps what the file says about every other key if and only if its trailing text holds no history |
| ConfigCreation.CreatedTakes | src/config.rs:1088-1115 | history in the trailing text becomes that of the created section's key of the same flag |
| ConfigCreation.CreationStaysSound | src/config.rs:1316-1338 | without history there, the file with the new section is one the theorems about runs speak of |
| ConfigRun.FreshIsSound | src/config.rs:1068-1116 | every section without history lines is a sound start of such runs, with empty stacks |
| ConfigUndo.RevertTwiceRestores | src/config.rs:1674-1784 | two plain reverts of a set key, whatever is done to other keys around them, restore value and stack values if and only if the first finds nothing valid, or the value still validates and the stack is within the cap |
| ConfigUndo.RevertPermutes | src/config.rs:1722-1745 | a revert permutes current value and stack, losing nothing, unless it succeeds on a set key whose stack is over the cap, and then it always loses |
| ConfigUndo.UnsetThenRevertRestores | src/config.rs:1626-1641 | unset and revert bring value and stack back whole if and only if the value still validates and the stack held at most four entries |
| ConfigUndo.UnsetThenRevert | src/config.rs:1626-1641 | the stack that comes back is the newest four of the old one |
| ConfigDocument.GatherOrphans | src/config.rs:1068-1129 | the two nested loops gather the section's orphan blocks, and where each is, in file order |
| ConfigDocument.LocateOrphan | src/config.rs:1150-1161 | the block tagged for the flag, else the first untagged block whose entries all validate |
| ConfigDocument.FindsTheAttributed | src/config.rs:1149-1161 | in any section an absent key is given the first block in file order tagged for it, and only without one the first untagged block all of whose values it takes |
| ConfigDocument.AdoptOrphan | src/config.rs:1242-1255 | finding, cutting out and stripping the tag, as the specification that `Adopts` is proved of |
| ConfigDocument.StackOf | src/config.rs:1791-1806 | the run directly above a set key, else the entries of its orphan block |
| ConfigDocument.Document.SetValue | src/config.rs:1460-1552 | the document becomes what the set command makes of it, a missing section created; says which value was replaced, and when a value is invalid or equal, which leaves all unchanged |
| ConfigDocument.Document.UnsetValue | src/config.rs:1571-1657 | the document becomes what the unset command makes of it; the outcome tells a known from an unknown and a set from an absent key |
| ConfigDocument.Document.RevertValue | src/config.rs:1672-1784 | the document becomes what the revert command makes of it; restored is the entry asked for, and each failure has its exact condition and changes nothing |
| EditDistance.Levenshtein | src/config.rs:1931-1942 | the two-row loop computes the recursive minimum edit distance |
| EditDistance.Triangle | src/config.rs:1931-1942 | the distance obeys the triangle inequality |
| EditDistance.Symmetric | src/config.rs:1931-1942 | the distance is symmetric |
| EditDistance.ZeroIffEqual | src/config.rs:1931-1942 | the distance is zero if and only if the strings are equal |
| EditDistance.NoShorterScript | src/config.rs:1931-1942 | no sequence of single-character edits between two strings is shorter than their distance |
| EditDistance.ShortestScript | src/config.rs:1931-1942 | a sequence of exactly that many edits exists |
| EditDistance.DidYouMean | src/config.rs:1919-1928 | the first registry key nearest to the input and within three edits; none if and only if no key is that near |
| BulkStream.CutsDoNotMatter | src/client.rs:1322-1387 | every way of cutting a byte stream that hits no size error gives the parse of the whole stream: messages, payloads, fetches, leftover state |
| BulkStream.FeedKeepsValid | src/client.rs:1327-1385 | between chunks a payload in progress leaves nothing buffered, lacks a positive number of bytes and adds up to its declared, permitted length; otherwise no complete frame is buffered |
| BulkStream.NothingIsLost | src/client.rs:1322-1387 | while open, the bytes received are, in order and byte for byte, frames consumed, payloads delivered or swallowed, the payload in progress and the buffer |
| BulkFetches.FeedParses | src/client.rs:1389-1603 | every frame handled decodes to its message, and every header is followed by exactly one payload of its declared length |
| BulkFetches.PendingDoesNotMatter | src/client.rs:1549-1595 | with any two sets of pending fetches a stream is parsed into the same messages and payloads: unknown ids disturb nothing |
| BulkFetches.EachFetchOnce | src/client.rs:838-867 | over any interleaving of fetches and chunks each fetch gets at most one result, only from a header with its own id and with exactly the bytes that header declared; below 2^64 fetches no other fetch has that id |
| BulkFetches.OneParse | src/client.rs:1389-1603 | a stream has one parse: two logs of the same bytes, both at a message boundary, record the same messages and payloads |
| BulkDelivery.FetchGetsItsReply | src/client.rs:1549-1595 | over any interleaving, a fetch that is not given up gets, whole, the payload of the first header with its id once it has arrived |
| BulkDelivery.GivenUpGetsNothing | src/client.rs:854-856 | a fetch given up before its header came gets no result whatever follows |
| BulkDelivery.ResetOnlyOnFaults | src/client.rs:1389-1603 | the stream is reset if and only if its bytes lead to a payload larger than permitted or to a frame that does not decode |
| BulkDelivery.ResetExactly | src/client.rs:1322-1387 | a chunk on a fresh connection resets it for these reasons and for exceeding a mebibyte only |
| BulkConnection.Connection.HandleBulkMessages | src/client.rs:1389-1603 | the parse loop over offsets ends and does what draining the buffer frame by frame does |
| BulkConnection.Connection.HandleBulkDataOrMessages | src/client.rs:1322-1387 | one chunk, raw payload bytes first, does what feeding it to the specification does, and keeps the framing invariant |
| BulkConnection.Connection.RequestFetch | src/client.rs:838-867 | a fetch becomes pending under the next id, and the fetches given up are dropped |
| DeltaScaler.Scaler.Apply | src/client.rs:116-147 | the retain loop scales a batch as the specification does, and the bypass at scale one changes nothing |
| DeltaScaler.ScalingConserves | src/client.rs:116-147 | per axis, what was emitted plus what is carried is the scale times the input, and less than one tick is carried |
| DeltaScaler.BatchesDoNotMatter | src/client.rs:116-147 | any batching of an event sequence emits and carries the same |
| DeltaScaler.NoDrift | src/client.rs:59-65 | from a fresh scaler, after any batches, an axis is less than one tick off |
| DeltaScaler.AxesFollowTheirScale | src/client.rs:94-109 | pointer axes follow the mouse scale and wheel axes the scroll scale to within one tick, all others are exact |
| DeltaScaler.CastIsNearest | src/client.rs:116-147 | the cast goes to the nearest 32-bit number |
| DeltaScaler.OneDirectionIsExact | src/client.rs:59-65 | input in one direction has emitted exactly the scaled total rounded toward zero |
| DeltaScaler.AxesAreIndependent | src/client.rs:75-77 | what is emitted on an axis is what the events of that axis alone would have emitted |
| DeltaScaler.OthersPass | src/client.rs:110-115 | keys, buttons, syn and unscaled axes pass unchanged and in order |
| DeltaScaler.AcceptedScalesFit | src/config.rs:2160-2173 | with the accepted scales no delta up to 107374182 can saturate the cast |
| EventStream.WakeKeepsOrder | src/client.rs:1053-1267 | the frames of the writes are the scaled input frames in arrival order, key releases and clipboard types keep their place among them, and nothing stays queued |
| EventStream.FramesAreKept | src/client.rs:761-813 | each write is one frame that must be on its own, or non-empty frames of one class none of which must |
| EventStream.BurstIsOneWrite | src/client.rs:761-813 | input of one class that is not a touchpad's and has no absolute event is one device write |
| EventConnection.CutsKeepOrder | src/client.rs:900-933 | over any number of wakes, however the bytes were cut and whenever the timer runs out, the frames written are the scaled input of the whole stream in order, releases and types keep their place, and nothing stays queued |
| EventConnection.ParsedIsWhole | src/client.rs:1081-1095 | the bytes are the frames of the messages parsed, each up to its zero, and a rest that holds no complete frame or starts with one that does not decode |
| EventConnection.LostExactly | src/client.rs:911-917 | a chunk resets the connection if and only if the buffer exceeds a mebibyte or a frame does not decode |
| EventConnection.CutsKeepFrames | src/client.rs:761-813 | over any number of wakes, errors included, each write is one frame that must be on its own, or non-empty frames of one class none of which must |
| EventConnection.MergedWritesArePlain | src/client.rs:50-59 | over any run, frames that share a write come from no touchpad and hold no event of absolute type |
| EventConnection.CutsAnswerPings | src/client.rs:1200-1213 | every ping of the stream is answered once |
| EventConnection.AnnouncementsAreBounded | src/client.rs:458-489 | over any number of wakes and expiries, errors included, the announcements in the log number at most the deactivations in it and one first activation |
| InputConnection.Connection.FlushPendingInput | src/client.rs:747-762 | one write of everything queued, under its class, or none |
| InputConnection.Connection.QueueInput | src/client.rs:776-813 | a frame is queued, or written at once behind what was queued, as the specification says |
| InputConnection.Connection.HandleSwitch | src/client.rs:1091-1150 | an activation or deactivation releases keys, arms or cancels the timer and announces as specified |
| InputConnection.Connection.HandleEventMessages | src/client.rs:1053-1267 | the loop over one wake's frames does what handling the parsed messages one by one and flushing does |
| InputConnection.Connection.OnChunk | src/client.rs:900-918 | a chunk is one wake of the specification the `EventConnection` theorems are proved of, the size ceiling included |
| InputConnection.Connection.OnExpiry | src/client.rs:924-933 | the timer running out is the other kind of wake: it disarms, and announces when inactive |
| DeferredAnnounce.RunsAreBounded | src/client.rs:458-489 | an armed timer means the client is inactive; announcements number at most the deactivations and one first activation |
| DeferredAnnounce.ExpiryAnnounces | src/client.rs:924-933 | an expiry that is possible announces, and never while active |
| DeferredAnnounce.PairIsSilent | src/client.rs:1091-1150 | a deactivation and an activation before the deadline announce nothing and leave no timer armed |
| DeferredAnnounce.RealSwitchAnnouncesOnce | src/client.rs:433-452 | a deactivation that nothing cancels announces exactly once when due |
| DeferredAnnounce.FirstActivationAnnounces | src/client.rs:1119-1149 | an activation announces if and only if it is the first and does not directly follow a deactivation |
| DeferredAnnounce.Timer.OnSwitch | src/client.rs:463-469 | arms or cancels, and tells what the caller must know to suppress the announcement |
| DeferredAnnounce.Timer.TakeExpired | src/client.rs:486-489 | disarms, and allows the announcement exactly when inactive |
| LinkMonitor.ReportsAlternate | src/client.rs:1681-1715 | reports alternate strictly, Degraded first, and neighbours are a cooldown apart |
| LinkMonitor.WindowsAreBounded | src/client.rs:1661-1663 | a window of length t holds at most 1 + t / cooldown reports |
| LinkMonitor.MismatchIsReported | src/client.rs:1676-1680 | a condition that stays different from what was reported is reported at the first sample at or after the end of the cooldown, and at none before |
| LinkMonitor.ReportsAreTrue | src/client.rs:1697-1715 | each report is of a sample: Degraded of one over 50 ms or 2 % loss, Recovered of one under both |
| LinkMonitor.FirstTroubleIsReported | src/client.rs:1697-1715 | the first sample over a threshold is reported at once, none before it |
| LinkMonitor.Monitor.Check | src/client.rs:1697-1715 | classifies a sample and updates the state as specified |
| TraySupervisor.EveryProcessIsAccounted | src/indicator_spawn.rs:299-313 | over every interleaving each process spawned is in exactly one of the slot, being reaped, reaped, orphaned, let go on a poll error |
| TraySupervisor.MonitorStoresSafely | src/indicator_spawn.rs:690-713 | the monitor never stores while hidden, over an occupied slot or after the drop took the child, and its check never passes once shutdown is set |
| TraySlots.StoresInShutdown | src/indicator_spawn.rs:690-713 | between a check that passed and its store, shutdown is set if and only if the flag was raised in between; the store goes ahead |
| TraySlots.StoreInShutdownHappens | src/indicator_spawn.rs:690-713 | a run in which it does |
| TraySupervisor.HiddenStaysEmpty | src/indicator_spawn.rs:491-501 | once hide or the drop took the child nothing is spawned and the slot stays empty until a show or the launch stores |
| TrayRespawns.BudgetHolds | src/indicator_spawn.rs:135-153 | between two resets at most three respawns are granted, each charged |
| TrayRespawns.BudgetIsUsed | src/indicator_spawn.rs:144-152 | after a reset, over any run without another, a child that exits on its own is respawned if and only if fewer than three respawns were granted since, and otherwise the supervisor hides |
| TrayRespawns.StableIsRespawned | src/indicator_spawn.rs:144-152 | a child that stayed up ten minutes is always respawned |
| TrayRespawns.RespawnsAreGranted | src/indicator_spawn.rs:633-713 | from any state over any run the monitor stores at most as many children as it is granted, plus one if a respawn was pending at the start |
| TrayRespawns.StoresBetweenResets | src/indicator_spawn.rs:135-153 | between two resets it stores at most what the budget had left, plus one if a respawn from before can still be carried out |
| TrayRespawns.ExtraRespawn | src/indicator_spawn.rs:690-713 | that one more than granted is stored on some run if and only if the monitor holds such a respawn: past its check, or in its delay neither hidden nor shutting down |
| TrayRespawns.GrantsAreEarned | src/indicator_spawn.rs:419-441 | over every run the respawns granted number at most the processes reaped that exited on their own: a stand-down or a SIGTERM costs nothing |
| TraySlots.OnlyRespawnFills | src/indicator_spawn.rs:443-451 | an empty slot can be filled without a show or the launch if and only if a respawn is under way that neither a hide nor the shutdown has called off |
| TraySlots.StrandedExactly | src/indicator_spawn.rs:378-398 | the steps that leave the supervisor visible with an empty slot nothing will refill: a show's own poll, a poll error, an exit seen or a delay running in shutdown, and no others |
| TraySlots.StrandingHappens | src/indicator_spawn.rs:504-529 | a run to such a state, and the slot then stays empty on every run without a show |
| TraySlots.DropIsFinal | src/indicator_spawn.rs:607-625 | after the drop took the child every run keeps the slot empty and spawns nothing if and only if no show is on its way |
| TraySlots.ShowOutlivesDrop | src/indicator_spawn.rs:506-529 | a run in which a show that passed its shutdown check before the drop fills the slot after it |
| TrayRespawns.RespawnOutlivesReset | src/indicator_spawn.rs:467-476 | a run in which a respawn granted before a show is carried out after it, on the fresh budget, without a reset in between |
| TraySupervisor.Shared.ObserveAndDecide | src/indicator_spawn.rs:378-441 | one monitor tick on the record, as specified |
| TraySupervisor.Shared.StoreFreshChild | src/indicator_spawn.rs:467-476 | stores with a fresh budget and visible, and hands back a prior child |
| TraySupervisor.Shared.Respawn | src/indicator_spawn.rs:690-713 | the final section is the transition system's check followed, when it passes, by its store |
| KnownServers.RecordReadsBack | src/known_servers.rs:47-75 | a formatted record parses to itself if and only if its host is not named by a lone dash |
| KnownServers.SaveThenLoad | src/known_servers.rs:80-121 | a well-formed list comes back unchanged if and only if no host is a lone dash, and otherwise only those hosts are dropped |
| KnownServers.LoadKeepsFirst | src/known_servers.rs:80-105 | from any text, for each address the record on the first line that holds one with it is loaded, and nothing else |
| KnownServers.Load | src/known_servers.rs:80-105 | the loading loop: blank and corrupt lines and repeated addresses skipped |
| KnownServers.Save | src/known_servers.rs:109-121 | the text written, one line a record |
| ServerRecency.RememberedIsPrefix | src/known_servers.rs:147-171 | after any run of records from empty the list is a prefix, of at most five, of the records no newer one supersedes, the newest first |
| ServerRecency.CurrentIs | src/known_servers.rs:155-159 | those are exactly the records that share neither address nor case-folded fingerprint with a newer one |
| ServerRecency.RememberedShareNothing | src/known_servers.rs:131-146 | no two remembered servers share an address or a fingerprint |
| ServerRecency.FileRemembers | src/known_servers.rs:147-171 | what the file holds after any run is that recency list, as read back |
| ServerRecency.NewestComesFirst | src/known_servers.rs:147-200 | the newest success is first in the file, under its name unless that is empty, a lone dash or holds white space or control characters |
| ServerRecency.SharesIgnoresCase | src/known_servers.rs:155-159 | servers are the same if and only if they share the address or a fingerprint up to the case of letters |
| ServerRecency.Record | src/known_servers.rs:147-171 | load, retain, insert, truncate and save write the file of the specification |
| ServerRecency.FindByFingerprintPrefix | src/known_servers.rs:217-239 | for the prefix in lower case, one server if and only if exactly one matches; an error if and only if several do; nobody for an empty prefix |
| PeerHub.RequestGetsItsAnswer | src/control.rs:817-865 | over any interleaving a request gets exactly the first answer of the peer it was addressed to, unless cancelled before, and nothing else |
| PeerHub.StrangersDoNotMatter | src/control.rs:837-858 | any run ends as it would without the answers of peers other than the one asked, or to ids never handed out |
| PeerHub.ReportIsComplete | src/control.rs:875-946 | each client's entry is its peer's first answer by the end of its turn, unless cancelled first, and otherwise names the cause; an answer that came while an earlier client was waited for is there |
| PeerHub.NotAskedIsReported | src/control.rs:921-924 | a client that could not be asked has the reason for an entry |
| PeerHub.NothingLeaks | src/control.rs:860-865 | after the report the hub holds no entry for any request in it |
| PeerHub.DiagnosticsHub.CompleteRequest | src/control.rs:837-858 | delivers to the waiting request and forgets it, or ignores the answer |
| PeerHub.DiagnosticsHub.Collect | src/control.rs:875-946 | the loop over the roster, other tasks working on the hub during each wait, makes the report `ReportIsComplete` and `NothingLeaks` are proved of |

## Left out

- ConfigFile.FileRefines: runs that create a section are outside it; `ConfigCreation` says what one such command does.
- ConfigRun.RunRefines: a stored value that renders on several lines is not covered; the program banks nothing for it, and its unset leaves an untagged block.
- ConfigHistory.SetRefines: the stored value is the text its later history entry shows; the TOML library's normalisation of values is not part of this model.
- ConfigDocument.Document.SetValue: a file without any section is taken to be empty; comments in one stay below the section created.
- ConfigSection: a tag is stripped as the first line equal to it; the program removes the first occurrence of its text, which differs only when another comment line ends in that text.
- BulkStream.CutsDoNotMatter: cuts that hit the frame-buffer ceiling are outside it, as the ceiling is checked before a chunk is parsed.
- TraySupervisor: the respawn delay is any delay, and process ids are not reused.
- EventStream: whether a device write succeeds, and the datagram path of pointer motion with its loss healing.
- Calendar: days so far from the epoch that the program's 64-bit arithmetic would overflow.
- DeltaScaler: rounding of 64-bit floats; the arithmetic here is exact.
- PeerHub: ids are unbounded numbers; the program's counter has 64 bits.
- Array-of-tables and inline-table sections, non-value items, and the validator-fit attribution of untagged blocks beyond `LocateOrphan`: their blocks are attributed by best effort.
- `resolve_host`, port defaulting and hostname lookup: single decisions without state.
- How an exit status is classified, and when a spawn or a show is refused: single decisions, inputs to the supervisor's steps.
- Screen-edge inference, which the program has disabled, and menus, icons and status text.
- Sockets, QUIC, TLS, file modes, atomic renames, signals, D-Bus and clipboard tools: environment.
- The bodies of the wire messages: a frame is the bytes up to its first zero, and decoding it is a parameter.
- `autoupdate`, `logging`, `alias`, `discovery` and `diagnostics`: small or best-effort by design.
