# Verified models of a network monitoring stack

This project models the parts of the monitoring services that carry state or read bytes, and proves what
they keep over whole runs and whole inputs.

- **Signal engine** (`syslogs/signals`; `Signal*.dfy`). Messages are matched against rules and open or close
  alarms ("signals"); a monitor tick promotes and retires them after delays; every change goes to a document
  stream, and creation, opening and removal also go to Redis, from which a restart reloads. `SignalSpec` is the
  state machine, `SignalEngine.Engine` the program with its fixed table updated in place, proved equal to it, and
  `SignalProgram` runs it. The other modules prove invariants of every run: Redis and index agreement, the order and
  timing of each signal's life, one signal per alarm, and refinement of a map.
- **NetFlow consumer** (`netflow/consumer`; `Fifo*.dfy`, `Batching.dfy`, `Pipeline*.dfy`). A closable linked-list
  queue, a batching sender, and the receiver, any number of workers and the sender as a transition system with
  condition variables: conservation, no lost wake-up, and a shutdown that ends with everything sent.
- **NetFlow v9 collector** (`netflow/producer/producer.c`; `NetFlow*.dfy`). Templates learned from earlier
  FlowSets decide how later bytes are read (RFC 3954, sections 5.1 to 5.3): the table as a map, what each record
  decodes to, which bytes that may depend on, and round trips through records, FlowSets and packets.
- **sFlow decoder** (`sflow/producer/decoder.go`; `SFlow*.dfy`). `SFlow` says what a datagram means by the place
  of each word; `SFlowReader` is the cursor-driven decoder, proved equal to it on every input; the other modules
  prove that it accepts exactly the wire forms of well-formed datagrams, that unknown samples and VLAN tags
  change nothing, and that the two forms of a sample agree.
- **Text transducers** (`LargeIntegers*.dfy`, `EscapeJson.dfy`, `SyslogPayload.dfy`, `JsonReader.dfy`). Quoting long
  integers, escaping a syslog line into a buffer of given size, and when the results are JSON.

## How the program is idealised

- Each message, monitor tick, rule reload and restart of the signal engine is one atomic step with one reading of
  a clock that never runs back. The source declares `status_update_mutex` and never takes it, so this is an
  assumption about its threads, not something the code enforces. The whole match list of one message sees one
  clock value.
- UUIDs are 36-character ids that were never used before. JSON texts are parsed values; equality of values is that of
  `json_equal`. Formatted times are any non-empty text that fits its array.
- Redis is a perfect key-value store that this service has to itself; the trap service of the repository uses the
  same id set. SMEMBERS answers in any order.
- The document stream has one document a change, because the bulk threshold is one event
  (`syslogs/signals/opensearch.c:9`); a document carries the whole record under its id.
- In the pipeline every critical section is one step. A signal wakes a sleeper of the implementation's choice,
  a woken thread may be overtaken, and spurious wake-ups are steps of their own.
- The NetFlow decoder reads fields at fixed widths; what it finds behind the receive buffer is modelled as zero.
  That no result but such a field's depends on it is proved in `NetFlowBounds`.
- Texts are byte strings, and where a text is cut to its array the cut falls between characters. In the program a
  character of several bytes can be cut in two; the JSON library then refuses the text, and the member is missing from
  the record and the document.
- sFlow errors carry their kind (truncated, negative length, version, address type), not their text. The time a
  datagram was received is a parameter.

## What turned out not to hold

- A rule name of 32 characters or more, or a device of 128 or more, is cut when a signal is created, and the
  signal is never found again: the same alarm opens twice. `NewSignalIsFound` and `RepeatedOpenIsIgnored` give the
  exact condition, `LongRuleNameDuplicates` a run.
- A close event never reaches Redis, so a restart brings a cooling signal back as it was before its close event.
  `RestartRestores` says which signals come back unchanged, `IndexAgreesExactly` and `RestartKeepsMirror` when table
  and index agree, `BehindByRestart` that nothing else makes them differ, `RestartForgetsClose` gives a run.
- The match list is allocated for one match a rule, and a rule can match both ways: `MatchListOverflows` and
  `FlapOverflows`.
- A packet with more records than are free of the bulk buffer's six places loses the rest: `BufferKeepsAll`,
  `NothingIsLostWhenAllFit` over all packets received, and `SeventhRecordIsLost` for a packet.
- A template whose field is narrower than the switch reads makes the decoder look behind a record, and behind the
  packet when the record is its last: `DependsOnRecordOnly` and `RecordsStayInPacket`, with the packet of
  `ShortFieldReadsBehind`.
- A text that just fits the buffer can be cut by its last character: `FittingTextIsCut`, `TwoLettersInThree`. Control
  characters other than newline, carriage return and tab pass unescaped: `OutputIsJson`, `ControlPassesRaw`. A long line
  is cut with its object: `PublishedIsJson`, `QuotesBreak`.
- Quoting long integers can break JSON: a negative number, a fraction, or a run behind an escaped quote.
  `JsonStaysJson` gives the exact condition, `NegativeBreaks` a text. An empty input has no room for the terminator:
  `FitsTwiceTheLength`.

## Model

| member | source | states |
|---|---|---|
| `SignalRedis.LoadUndoesStore` | syslogs/signals/redis.c:53-139 | reading a stored record gives the signal back exactly when all its texts and lists fit their arrays |
| `SignalRedis.Members` | syslogs/signals/redis.c:104-128 | a stored record has exactly these eleven members, each readable under its own name |
| `SignalRedis.StoredStatus` | syslogs/signals/redis.c:110 | the status is stored by its name in the lifecycle |
| `SignalRedis.LoadsExactly` | syslogs/signals/redis.c:53-87 | the loader reads exactly the objects with seven texts, one of the four statuses and an object of entities; a missing time reads as zero, a missing list as empty |
| `SignalSpec.RuleByName` | syslogs/signals/rules.c:102-109 | the first rule of that name, none exactly when no rule has it |
| `SignalSpec.FindFirst` | syslogs/signals/process.c:108-115 | the first signal whose device and rule are equal and whose entities are part of the tags |
| `SignalMatching.FoundExactly` | syslogs/signals/activeSignals.c:195-239 | the signal found has that device and rule and its every entity is in the tags with the same value; each one before it differs in one of these |
| `SignalMatching.ReadExactly` | syslogs/signals/process.c:46-76 | a payload is handled exactly when it is an object with three texts; the message has those texts, the timestamp if it is a text, and the tags if they are an object |
| `SignalSpec.Matches` | syslogs/signals/rules.c:112-171 | the list holds exactly the matches the message makes: an open or close entry for each rule in force whose mnemonic and tag open or close on it, and nothing else |
| `SignalMatching.MatchesExactly` | syslogs/signals/rules.c:119-167 | a rule in force opens exactly on its open mnemonic with its open value, a string, under its open tag, and closes exactly likewise |
| `SignalMatching.OpensBeforeItCloses` | syslogs/signals/rules.c:119-167 | a rule that matches both ways stands in its place with the open match first |
| `SignalSpec.MatchesSplit` | syslogs/signals/rules.c:117-168 | in rule order: the matches of a list of rules are those of its parts, one after the other |
| `SignalSpec.MatchListOverflows` | syslogs/signals/rules.c:114 | the list, allocated for one match a rule, is outgrown exactly when more rules match both ways than match neither way |
| `SignalSpec.FlapOverflows` | syslogs/signals/rules.c:114-167 | one rule that opens and closes on the same tag value gives two matches in room for one |
| `SignalSpec.LoadedAsStored` | syslogs/signals/rules.c:74-95 | the rules in force are the rows of the query exactly when every text fits its array |
| `SignalSpec.TickStep` | syslogs/signals/activeSignals.c:85-99 | the loop body with its step back of the index, met at any signal, advances the order-preserving pass over the old table by one |
| `SignalEngine.Engine.constructor` | syslogs/signals/activeSignals.c:22-23 | a new engine has an empty table, nothing sent, an empty Redis and no rules |
| `SignalEngine.Engine.AddToBulkPayload` | syslogs/signals/opensearch.c:147-197 | the document is sent at once, behind all earlier ones |
| `SignalEngine.Engine.SendToOpensearch` | syslogs/signals/opensearch.c:240-278 | everything collected is sent in order and nothing stays behind |
| `SignalEngine.Engine.StoreSignalInRedis` | syslogs/signals/redis.c:98-153 | the record is under the signal's id and the id in the set; nothing else changes |
| `SignalEngine.Engine.DeleteSignalFromRedis` | syslogs/signals/redis.c:155-181 | record and id are gone; nothing else changes |
| `SignalEngine.Engine.OpenSignal` | syslogs/signals/activeSignals.c:51-60 | the signal is open from now on, in table, Redis and stream |
| `SignalEngine.Engine.ShiftDown` | syslogs/signals/activeSignals.c:79-81 | the table without entry i, order kept |
| `SignalEngine.Engine.RetireSignal` | syslogs/signals/activeSignals.c:62-83 | a closed document is sent, and the signal leaves table and Redis |
| `SignalEngine.Engine.FindRuleByName` | syslogs/signals/rules.c:102-109 | the loop finds RuleByName |
| `SignalEngine.Engine.UpdateOne` | syslogs/signals/activeSignals.c:87-98 | a signal without a rule is left alone; a due one is opened or removed, and after a removal the same index is next |
| `SignalEngine.Engine.PromoteAndRetire` | syslogs/signals/activeSignals.c:86-99 | the loop that deletes while it iterates ends, and equals one order-preserving pass over the old table |
| `SignalEngine.Engine.UpdateSignalStates` | syslogs/signals/activeSignals.c:85-101 | the pass, then the compaction |
| `SignalEngine.Engine.RemoveClosedSignals` | syslogs/signals/activeSignals.c:25-49 | in-place compaction is the stable filter of what is not closed |
| `SignalEngine.Engine.FindActive` | syslogs/signals/process.c:108-115 | the scan finds FindFirst |
| `SignalEngine.Engine.AffectedEntities` | syslogs/signals/activeSignals.c:351-381 | exactly the tags that the rule's list names and the message carries |
| `SignalEngine.Engine.CreateSignal` | syslogs/signals/activeSignals.c:286-387 | a full table refuses; otherwise a new warmUp signal is last in the table, in the stream and in Redis |
| `SignalRecords.OpenEventCreates` | syslogs/signals/activeSignals.c:286-387 | an open event that finds nothing: field by field the record that is last in the table and the stream, and stored; a table of 1000 refuses it |
| `SignalRecords.EntitiesExactly` | syslogs/signals/activeSignals.c:351-381 | an entity is kept exactly when the message carries it and the list names it anywhere, with the tag's value; a list that does not parse or is no array names none |
| `SignalRecords.OpenEventIgnored` | syslogs/signals/process.c:116-120 | an open event that finds a signal changes nothing |
| `SignalEngine.Engine.CoolSignal` | syslogs/signals/activeSignals.c:439-462 | event, end time, coolDown and time stamp are set, the document is sent, Redis is not touched |
| `SignalEngine.Engine.CloseSignal` | syslogs/signals/activeSignals.c:432-466 | the first signal of the id cools down; an unknown id changes nothing |
| `SignalRecords.CloseEventCools` | syslogs/signals/activeSignals.c:432-466 | field by field: the signal found takes the event's id while it has fewer than 100, its end time and coolDown; nothing else of it changes, nor another signal, nor Redis |
| `SignalEngine.Engine.FindSignalRule` | syslogs/signals/rules.c:112-171 | all matches in rule order, a rule's open match before its close match |
| `SignalEngine.Engine.HandleOne` | syslogs/signals/process.c:97-152 | an open match creates only when no signal is found, a close match closes the one found |
| `SignalEngine.Engine.ProcessMessage` | syslogs/signals/process.c:35-159 | a payload that lacks its texts is skipped; otherwise the matches are handled one after the other |
| `SignalEngine.Engine.LoadSignalRules` | syslogs/signals/rules.c:35-99 | the old rules go; a failed query leaves none, otherwise each row is copied into its arrays; nothing else changes |
| `SignalEngine.Engine.LoadActiveSignals` | syslogs/signals/redis.c:30-96 | the table is what the readable records give, in the order of the ids, up to its size |
| `SignalRecords.LoadsReadable` | syslogs/signals/redis.c:38-90 | what is loaded are the readable records of the ids listed, and nothing else, in their order |
| `SignalRecords.LoadIsBounded` | syslogs/signals/redis.c:40 | a restart loads at most 1000 signals, however many ids are listed |
| `SignalProgram.RunStep` | syslogs/signals/process.c:11-164 | where a run has led the engine, one step of the program (message, tick, reload or restart) is the next step of that run |
| `SignalProgram.Execute` | syslogs/signals/main.c:53-97 | a whole legal run of the program: its fields are the final state of the run, Redis holds exactly the table's ids, and without restarts the documents sent show exactly the table |
| `SignalInvariants.RedisAgreesWithTable` | syslogs/signals/redis.c:98-181 | after any run, restarts included, Redis has exactly the table's ids, and each record is the signal as of its last creation or opening |
| `SignalInvariants.RestartRestores` | syslogs/signals/redis.c:30-96 | a restart brings back exactly the active ids, each in a state it really had, never later in its life, unchanged exactly when it was not cooling down |
| `SignalHistory.IndexMirrorsTable` | syslogs/signals/opensearch.c:147-197 | in every run without restarts the last-write-wins view of the documents, without closed ones, is the table record for record |
| `SignalHistory.IndexAgreesExactly` | syslogs/signals/opensearch.c:147-197 | after any run, restarts included, the ids of the index that are not closed are those of the table, and the records agree exactly when the index says coolDown of no signal that is in warmUp or open |
| `SignalBehind.BehindByRestart` | syslogs/signals/redis.c:30-96 | after any run the index says coolDown of a signal in warmUp or open exactly when some restart met the signal cooling down and no later step wrote a document of it |
| `SignalHistory.RestartKeepsMirror` | syslogs/signals/redis.c:30-96 | whenever a restart comes, index and table agree after it exactly when the index says coolDown of no active signal |
| `SignalLostClose.RestartForgetsClose` | syslogs/signals/activeSignals.c:432-466 | a legal run (open event, close event, restart) whose one signal was cooling down and comes back as before the close, while the index says coolDown |
| `SignalLifecycle.EveryLifeIsInOrder` | syslogs/signals/activeSignals.c:51-101 | the statuses of one id are a prefix of warmUp, open at most once, coolDown one or more times, closed; active exactly in between |
| `SignalLifecycle.DocumentsAreOrderly` | syslogs/signals/activeSignals.c:432-466 | restarts included: an end time exactly in coolDown and closed, times never run back, nothing follows closed, only the first document says warmUp |
| `SignalTiming.OpensOnlyWhenDue` | syslogs/signals/activeSignals.c:92-93 | without restarts a signal opens only warmup seconds or more after its creation, with no close event in between |
| `SignalTiming.OpensOnlyFromCreation` | syslogs/signals/activeSignals.c:92-93 | restarts included, a signal opens only from the record of its creation, warmup seconds or more after it |
| `SignalTiming.ClosesOnlyWhenDue` | syslogs/signals/activeSignals.c:94-95 | restarts included, a signal is removed only cooldown seconds or more after its latest close event, and is then gone |
| `SignalTiming.FateExactly` | syslogs/signals/activeSignals.c:87-98 | a tick opens a signal exactly when it is in warmUp and the warm-up of the first rule of its name is over, and drops it exactly when it is in coolDown and the cool-down is over |
| `SignalTiming.TickDoesExactly` | syslogs/signals/activeSignals.c:85-101 | on every run, for every active signal: opened exactly when its warm-up is over, retired exactly when its cool-down is over, otherwise left as it is without a document |
| `SignalTiming.NoRulesNoTick` | syslogs/signals/activeSignals.c:89-90 | until the rules are loaded again, a restarted engine does nothing at its ticks |
| `SignalRecords.TickChangesStatusOnly` | syslogs/signals/activeSignals.c:51-69 | opening and retiring change the status and its time and nothing else |
| `SignalTiming.NothingDueIsLeft` | syslogs/signals/activeSignals.c:85-101 | after a tick no signal in warmUp has spent its rule's warm-up, and none in coolDown its cool-down |
| `SignalTiming.TickSettles` | syslogs/signals/activeSignals.c:85-101 | a second tick in the same second changes nothing |
| `SignalTiming.PassKeeps` | syslogs/signals/activeSignals.c:85-99 | what is left after the pass: kept signals as they were, due warm-ups opened, nothing else |
| `SignalTiming.PassDocsCome` | syslogs/signals/activeSignals.c:85-99 | the documents of a tick are those of its promoted and removed signals and no others |
| `SignalTiming.CompactionIsIdentity` | syslogs/signals/activeSignals.c:25-49 | the compaction removes nothing exactly when nothing is closed |
| `SignalTiming.CompactionIsFilter` | syslogs/signals/activeSignals.c:25-49 | the compaction keeps exactly what is not closed, in order |
| `SignalTiming.MonitorLeavesNoneClosed` | syslogs/signals/activeSignals.c:100 | on every run the compaction at the end of a tick is the identity |
| `SignalIdentity.NewSignalIsFound` | syslogs/signals/activeSignals.c:313-317 | a new signal is what the same lookup finds exactly when device and rule name fit their arrays |
| `SignalIdentity.RepeatedOpenIsIgnored` | syslogs/signals/process.c:104-125 | a second open match changes nothing when the names fit, and adds a twin when they do not |
| `SignalIdentity.LongRuleNameDuplicates` | syslogs/signals/globals.h:27-32 | a legal run with a rule name of 32 characters that ends with two signals for one alarm |
| `SignalIdentity.OneSignalPerAlarm` | syslogs/signals/process.c:104-125 | with names that fit, whatever the tags, across reloads and restarts, no two signals share device, rule and entities |
| `SignalIdentity.OlderNeverShadowsNewer` | syslogs/signals/activeSignals.c:195-239 | without restarts an older signal's entities are never part of a newer one's for the same device and rule |
| `SignalMap.ScanIsLookup` | syslogs/signals/process.c:108-115 | the linear scan finds exactly the map's entry |
| `SignalMap.OpenIsInsert` | syslogs/signals/activeSignals.c:286-387 | creation is insertion under a key that was absent |
| `SignalMap.CloseIsUpdate` | syslogs/signals/process.c:126-151 | a close match is an update of the entry found, or nothing |
| `SignalMap.TickRefines` | syslogs/signals/activeSignals.c:85-101 | a tick opens and drops entries of the map one by one |
| `SignalMap.TableRefinesMap` | syslogs/signals/process.c:97-151 | on every run with fixed key lists that messages carry, each step acts on the table as on a map; a restart takes every entry back to its last creation or opening |
| `FifoList.Queue.constructor` | netflow/consumer/queue.c:4-9 | a new queue is empty and open |
| `FifoList.Queue.Push` | netflow/consumer/queue.c:11-33 | an open queue has the message last, a closed one is unchanged; the links still spell out the queue |
| `FifoList.Queue.Pop` | netflow/consumer/queue.c:35-59 | the oldest message, or wait when open and empty, or the end when closed and empty |
| `FifoList.Queue.Close` | netflow/consumer/queue.c:61-66 | closed, its messages kept |
| `Fifo.FirstInFirstOut` | netflow/consumer/queue.c:11-66 | messages come out in the order they went in, none pushed after the close; then a popper waits at an open queue and is sent away from a closed one |
| `Batching.BulkSender` | netflow/consumer/worker.c:63-94 | everything popped is sent in order, in batches of exactly 1000 but for a shorter last one |
| `Batching.CutIsUnique` | netflow/consumer/worker.c:80-90 | the messages determine the batches |
| `Pipeline.EachMessageIsInOnePlace` | netflow/consumer/worker.c:11-94 | in every interleaving each message pushed is in exactly one of: raw queue, a worker's hand, bulk queue, batch, sent |
| `Pipeline.BatchesAreFull` | netflow/consumer/worker.c:63-94 | every batch sent holds 1000, except perhaps the very last, sent when the sender leaves |
| `Pipeline.NoPushIsDropped` | netflow/consumer/queue.c:18-22 | no push reaches a closed queue |
| `Pipeline.WakeupsAreNotLost` | netflow/consumer/queue.c:31-40 | while a popper sleeps the queue is no longer than the number of woken poppers; after close none sleeps |
| `Pipeline.ShutdownSendsEverything` | netflow/consumer/main.c:240-256 | after the shutdown what was sent is what was pushed, exactly when there is a worker or nothing was pushed |
| `PipelineShutdown.StepLowersMeasure` | netflow/consumer/main.c:240-256 | every step after the stop, spurious wake-ups apart, lowers a measure |
| `PipelineShutdown.SpuriousRaisesByOne` | netflow/consumer/queue.c:38-40 | a spurious wake-up raises the measure by exactly one |
| `PipelineShutdown.ShutdownIsBounded` | netflow/consumer/main.c:240-256 | a run after the stop is no longer than the measure and two steps for each spurious wake-up in it |
| `PipelineShutdown.NeverStuck` | netflow/consumer/main.c:240-256 | before the end some thread can always move |
| `PipelineShutdown.AllThreadsExit` | netflow/consumer/main.c:240-256 | a run that only a spurious wake-up could continue has ended, with every thread gone |
| `PipelineShutdown.ShutdownDelivers` | netflow/consumer/main.c:200-256 | wherever the receiver stops and however threads interleave or wake, a run to the end sends exactly the messages pushed |
| `PipelineShutdown.OneWorkerKeepsOrder` | netflow/consumer/worker.c:11-61 | with one worker the order of arrival is the order of sending |
| `Characters.DigitsAre` | netflow/consumer/utils.c:27 | the characters counted as digits are the ten decimal ones |
| `LargeIntegers.PreprocessLargeIntegers` | netflow/consumer/utils.c:10-48 | on every input the loops write exactly the transducer's output into twice the input length; the terminator falls outside exactly when the input is empty |
| `LargeIntegers.QuoteLength` | netflow/consumer/utils.c:17-44 | the output is at least the input's length and at most two characters more for every twenty of length + 1 |
| `LargeIntegers.FitsTwiceTheLength` | netflow/consumer/utils.c:11 | output and terminator fit exactly when the input is not empty |
| `LargeIntegers.QuotesGoAroundLongRuns` | netflow/consumer/utils.c:17-44 | a quote before and after each maximal run of 19 digits or more outside strings and nowhere else; erasing them gives the input |
| `LargeIntegers.QuoteTwice` | netflow/consumer/utils.c:17-44 | applying it twice is applying it once |
| `LargeIntegersJson.JsonStaysJson` | netflow/consumer/utils.c:17-44 | for a JSON text the output is JSON exactly when every run that gets quotes lies outside strings as JSON tells them and no sign, point or exponent joins it |
| `LargeIntegersJson.NegativeBreaks` | netflow/consumer/utils.c:27-36 | a minus and nineteen digits are JSON, and their output is not |
| `EscapeJson.EscapeJsonString` | syslogs/producer/producer.c:92-129 | the buffer holds the escape of the part taken of the text before the first NUL, and a terminator, within its size |
| `EscapeJson.UnescapeUndoes` | syslogs/producer/producer.c:100-125 | unescaping undoes escaping on every text |
| `EscapeJson.WholeTextIsTaken` | syslogs/producer/producer.c:98 | the whole text is taken exactly when there is room before its last character; always when twice its length is less than the size |
| `EscapeJson.FittingTextIsCut` | syslogs/producer/producer.c:98 | a text whose escape would fit is cut exactly when its last character needs no escape and would fill the buffer |
| `EscapeJson.TwoLettersInThree` | syslogs/producer/producer.c:98 | two letters fit three bytes, and only one is written |
| `EscapeJson.OutputReadsBack` | syslogs/producer/producer.c:92-129 | the buffer reads back as a prefix of the input, never cut inside a pair, all of it exactly when there is room |
| `EscapeJson.OutputIsJson` | syslogs/producer/producer.c:100-125 | the output is the body of a JSON string exactly when the input has no other control character |
| `EscapeJson.ControlPassesRaw` | syslogs/producer/producer.c:123-124 | the control character 7 goes through as it is, and the output is no JSON string |
| `SyslogPayload.PublishedIsJson` | syslogs/producer/producer.c:371-379 | what is published for a line received is a JSON object exactly when 26 characters, the device and the escaped line fit 4095, and the line has no other control character |
| `SyslogPayload.PublishedReadsBack` | syslogs/producer/producer.c:371-379 | what fits is published with the device and the escape of the whole line, which unescapes to the line |
| `SyslogPayload.QuotesBreak` | syslogs/producer/producer.c:356-379 | for the longest line received, all quotes, what is published is no JSON |
| `NetFlowCollector.Collector.constructor` | netflow/producer/producer.c:109-111 | a new collector has the static templates and empty buffers |
| `NetFlowCollector.Collector.InitializeStaticTemplate` | netflow/producer/producer.c:149-188 | a full table stays as it was; otherwise the eleven fields in the router's order are added last, for both sources, and the second falls outside the table exactly when one entry was free |
| `NetFlowCollector.Collector.GetTemplate` | netflow/producer/producer.c:196-201 | the loop finds the first template of the id and source |
| `NetFlowCollector.Collector.RegisterTemplate` | netflow/producer/producer.c:231-242 | a known key is redefined in place, a new one added while there is room, otherwise nothing |
| `NetFlowCollector.Collector.ParseTemplateFlowset` | netflow/producer/producer.c:206-244 | the cursor loops register what the bytes define, up to the first truncated definition |
| `NetFlowCollector.Collector.ParseDataFlowset` | netflow/producer/producer.c:249-308 | the buffer takes the records of the template, if there is one with a length |
| `NetFlowCollector.Collector.BufferRecords` | netflow/producer/producer.c:268-307 | every whole record before the end is decoded and buffered in order |
| `NetFlowCollector.Collector.BufferRecord` | netflow/producer/producer.c:296-305 | a record is added while there is room, otherwise dropped |
| `NetFlowCollector.Collector.ProcessNetflowV9` | netflow/producer/producer.c:409-461 | on any bytes it does what Process says and refuses only a packet shorter than its header; whatever lies behind the packet the table is the same, and so is the whole state when no record reads behind it |
| `NetFlowCollector.Collector.WalkPacket` | netflow/producer/producer.c:424-458 | the FlowSet loop is the walk over table and buffer |
| `NetFlowCollector.Collector.VisitFlowset` | netflow/producer/producer.c:449-454 | id 0 changes the table only, ids above 255 the buffer only, the rest nothing |
| `NetFlowCollector.Collector.FlushKafkaBulk` | netflow/producer/producer.c:121-146 | everything buffered is produced in order and the buffer is empty |
| `NetFlowCollector.Collector.ReceivePacket` | netflow/producer/producer.c:694-711 | the body of the receive loop: other versions and short packets change nothing, and a full or due buffer is flushed |
| `NetFlowRuns.FlushesWhenDue` | netflow/producer/producer.c:694-712 | a packet not taken changes nothing; after one that is taken all that is buffered is produced when the interval has passed or six records wait, and otherwise all of it stays |
| `NetFlowRuns.DuePacketEmptiesBuffer` | netflow/producer/producer.c:711-712 | after any packets, one more that is taken when the interval has passed: nothing waits, and everything kept so far has been produced |
| `NetFlowRuns.OthersChangeNothing` | netflow/producer/producer.c:694-701 | after any packets, one of another version or too short changes nothing |
| `NetFlowLayout.StaticRecordIsRouters` | netflow/producer/producer.c:149-162 | the template the collector starts with reads the router's record of 37 bytes, each field in its place |
| `NetFlowLayout.DataBeforeTemplates` | netflow/producer/producer.c:169-184 | before any template is learned, data FlowSets 256 of the sources 0 and 65562 are read as router records, and no other data |
| `NetFlowLayout.OtherFlowSets` | netflow/producer/producer.c:249-266 | FlowSets 1 to 255 are passed over; data without a template, or with one of no length, yields nothing |
| `NetFlowLayout.ShortIsRefused` | netflow/producer/producer.c:410 | exactly the packets shorter than 20 bytes are refused, and change nothing |
| `NetFlowLayout.WalkStops` | netflow/producer/producer.c:427-442 | the walk stops at a length below four or beyond the packet |
| `NetFlowLayout.TruncatedDefinitionStops` | netflow/producer/producer.c:214-217 | a definition whose fields do not fit ends its FlowSet |
| `NetFlowCollector.DecodeOne` | netflow/producer/producer.c:269-293 | the field loop reads the record field by field |
| `NetFlowCollector.LengthOf` | netflow/producer/producer.c:259-261 | the sum of the field lengths |
| `NetFlowTable.PacketsKeepTable` | netflow/producer/producer.c:206-244 | on any bytes the table keeps to 64 entries and has no key twice |
| `NetFlowTable.FindIsLookup` | netflow/producer/producer.c:196-201 | the scan is lookup in a map keyed by (template id, source id) |
| `NetFlowTable.RegisterRefines` | netflow/producer/producer.c:231-242 | registration is the map's update, refused only for a new key when full |
| `NetFlowTable.TemplatesRefine` | netflow/producer/producer.c:206-244 | on any bytes a template FlowSet acts on the table as the definitions it holds act on a map, one after the other |
| `NetFlowTable.PacketRefines` | netflow/producer/producer.c:409-461 | so does a whole packet |
| `NetFlowTable.LatestDefinitionWins` | netflow/producer/producer.c:206-244 | after any packets, well-formed or not: no key is lost, a key found has the latest definition the packets hold, a defined key is missing only from a full table |
| `NetFlowDecode.DecodesLastOccurrence` | netflow/producer/producer.c:269-293 | each field is what the last template entry of its kind reads, zero without one |
| `NetFlowDecode.DependsOnRecordOnly` | netflow/producer/producer.c:272-293 | decoding a record in memory depends on its own bytes exactly when every field read lies inside it |
| `NetFlowBounds.TableStaysInPacket` | netflow/producer/producer.c:424-460 | the walk stays in the packet: acceptance and the table left depend on its own bytes only, whatever lies behind |
| `NetFlowBounds.PacketBuffers` | netflow/producer/producer.c:295-307 | the buffer after a packet has the records it yields, as far as there is room |
| `NetFlowBounds.RecordsStayInPacket` | netflow/producer/producer.c:268-307 | the records a packet yields depend on its own bytes exactly when none of them reads behind it |
| `NetFlowBounds.StateStaysInPacket` | netflow/producer/producer.c:409-461 | with templates that read inside their records nothing reads behind the packet, and then the whole state depends on its own bytes |
| `NetFlowBounds.ShortFieldReadsBehind` | netflow/producer/producer.c:276-277 | a version 9 packet, the first one received, that defines a byte count of one byte and carries one record of it: the record is read behind the packet, and two memories that hold the packet yield different records |
| `NetFlowRoundTrip.RecordReadsBack` | netflow/producer/producer.c:269-293 | an encoded record, with unknown fields between, decodes to itself |
| `NetFlowRoundTrip.RecordsReadBack` | netflow/producer/producer.c:268-307 | any number of encoded records decode to exactly those, in order; padding shorter than one adds nothing |
| `NetFlowRoundTrip.RecordCount` | netflow/producer/producer.c:258-268 | any body gives as many records as whole record lengths fit |
| `NetFlowRoundTrip.TemplatesReadBack` | netflow/producer/producer.c:210-243 | encoded definitions are registered exactly, in order; up to three bytes of padding add nothing |
| `NetFlowRoundTrip.WalkVisitsAll` | netflow/producer/producer.c:427-458 | on a concatenation of well-formed FlowSets the walk is a left fold over that list |
| `NetFlowRoundTrip.PacketIsWalked` | netflow/producer/producer.c:409-461 | a packet of any FlowSets is processed as that fold, with the source id of its header |
| `NetFlowRoundTrip.BufferKeepsAll` | netflow/producer/producer.c:296-305 | the buffer has all records exactly when they fit its six places, otherwise the first ones |
| `NetFlowRoundTrip.DataReadsBack` | netflow/producer/producer.c:249-308 | data behind a template just registered decodes to exactly its records |
| `NetFlowRoundTrip.PacketReadsBack` | netflow/producer/producer.c:206-308 | from any table that has the key or has room, a packet of a template and its data leaves the template registered and the records in the buffer |
| `NetFlowRoundTrip.SeventhRecordIsLost` | netflow/producer/producer.c:296-305 | a version 9 packet with a template and seven records, the first one received: six are produced, the seventh is neither produced nor kept |
| `NetFlowRuns.AlwaysRoom` | netflow/producer/producer.c:710-712 | whatever is received, the buffer is never left full |
| `NetFlowRuns.NothingIsLostWhenAllFit` | netflow/producer/producer.c:694-712 | over any packets received, what was produced and what waits are all records yielded, in order, exactly when every packet found room for its records; otherwise some are missing |
| `SFlowReader.Reader.ReadUint32` | sflow/producer/decoder.go:46-61 | the big-endian word at the cursor, which moves by four; too few bytes fail and leave it |
| `SFlowReader.Reader.ReadBytes` | sflow/producer/decoder.go:63-81 | exactly the bytes asked for; a negative or too large length fails and leaves the cursor |
| `SFlowReader.DecodeRawPacket` | sflow/producer/decoder.go:559-594 | four words and a header of the length the fourth says |
| `SFlowReader.DecodeFlowRecord` | sflow/producer/decoder.go:488-556 | the framed record, its raw packet if it is one, and the flow it yields if any |
| `SFlowReader.DecodeFlowRecords` | sflow/producer/decoder.go:347-378 | exactly the counted records, and their flows concatenated in order; an error leaves nothing |
| `SFlowReader.DecodeFlowSample` | sflow/producer/decoder.go:284-381 | what the layout says on every input, and the flows of its records in order |
| `SFlowReader.DecodeExpandedFlowSample` | sflow/producer/decoder.go:384-486 | the same for the expanded layout, one word for each interface |
| `SFlowReader.DecodeCounterRecord` | sflow/producer/decoder.go:876-910 | the framed record with its packed word split |
| `SFlowReader.DecodeCounterSample` | sflow/producer/decoder.go:764-810 | what the layout says on every input |
| `SFlowReader.DecodeExpandedCounterSample` | sflow/producer/decoder.go:813-874 | the same for the expanded layout |
| `SFlowReader.DecodeSample` | sflow/producer/decoder.go:196-272 | the sample by its type, and the flows it yields |
| `SFlowReader.DecodeSamples` | sflow/producer/decoder.go:173-278 | exactly the counted samples and all their flows in order; an error anywhere leaves nothing |
| `SFlowReader.DecodeSFlowDatagram` | sflow/producer/decoder.go:98-281 | on every input the meaning of the datagram and the flows of all its samples in order, or its error and nothing else |
| `SFlowFlows.FlowsByRecord` | sflow/producer/decoder.go:98-556 | for every datagram accepted, the flows published stand for exactly the raw packet records whose frame can be read, one each, in order; agent, device and uptime are the datagram's, interfaces and sampling rate the sample's, bytes the frame length, packets 1, the network the frame's, the time that of receipt |
| `SFlowPacket.SkipTags` | sflow/producer/decoder.go:613-633 | the tag loop ends inside the frame, at the type and payload behind all tags |
| `SFlowPacket.ParseTransportPorts` | sflow/producer/decoder.go:737-761 | ports of TCP and UDP when four bytes are there, otherwise the record as it was |
| `SFlowPacket.ParseNetworkPacket` | sflow/producer/decoder.go:597-734 | addresses, protocol and ports by their place behind the tags, for any frame, with no access outside it |
| `SFlowPacket.TagsChangeNothing` | sflow/producer/decoder.go:613-633 | any number of VLAN tags behind the MAC addresses leave the result unchanged, for any frame |
| `SFlowPacket.FrameExactly` | sflow/producer/decoder.go:613-734 | behind any tags of the three types: IPv4 and IPv6 are read as such, any other type leaves a record without addresses |
| `SFlowPacket.CutFrame` | sflow/producer/decoder.go:609-627 | a frame shorter than 14 bytes or cut short behind its tags is given up |
| `SFlowPacket.IPv4Exactly` | sflow/producer/decoder.go:652-692 | IPv4 is read exactly when 20 bytes, version 4 and the whole header are there; addresses and protocol by place, ports only for TCP and UDP and only when four bytes follow |
| `SFlowPacket.IPv6Exactly` | sflow/producer/decoder.go:699-732 | IPv6 likewise, exactly with 40 bytes and version 6 |
| `SFlowPacket.IPv4FrameReadsBack` | sflow/producer/decoder.go:652-693 | a TCP or UDP packet over IPv4 behind any tags, with any header length, is read as sent |
| `SFlowPacket.IPv6FrameReadsBack` | sflow/producer/decoder.go:699-732 | the same over IPv6 |
| `SFlowSamples.ManyFindsAll` | sflow/producer/decoder.go:173-278 | on success there are as many values as counted, each found where the ones before it end |
| `SFlowSamples.AllSamplesOrNone` | sflow/producer/decoder.go:173-281 | exactly sampleCount samples, or the error of the first sample that does not decode |
| `SFlowSamples.ErrorsInOrder` | sflow/producer/decoder.go:107-160 | another version than 5 is reported first, then another address type than 1, each with the word found; anything else that fails has been cut short |
| `SFlowSamples.UnknownSampleIsSkipped` | sflow/producer/decoder.go:266-278 | a sample of unknown type put anywhere, with the count raised, changes neither flows nor errors and is kept empty in its place |
| `SFlowSamples.StandardIsExpanded` | sflow/producer/decoder.go:284-486 | the standard and the expanded form of one flow or counter sample decode to the same value, or fail alike, on any bytes |
| `SFlowRoundTrip.FlowRecordReadsBack` | sflow/producer/decoder.go:488-556 | a well-formed record, its packed word of enterprise and format included, is read back, whatever follows |
| `SFlowRoundTrip.FlowRecordOnlyWritten` | sflow/producer/decoder.go:488-556 | what is accepted is the wire form of the record found, and the rest |
| `SFlowWire.BodyReadsBack` | sflow/producer/decoder.go:196-272 | a sample of each type, with any bytes behind it in its block, is read back |
| `SFlowWire.BodyOnlyWritten` | sflow/producer/decoder.go:196-272 | an accepted sample body starts with the wire form of the sample found |
| `SFlowWire.DecodesExactlyWhatIsWritten` | sflow/producer/decoder.go:98-281 | the decoder accepts exactly the wire forms of well-formed datagrams, any counts at every level, and finds the datagram written |

## Left out

- Kafka, curl, Redis and PostgreSQL calls, sockets, logging and signal handlers: messages come in and documents go
  out as values; Redis is a perfect store.
- The interleaving of the signal engine's threads within a step (monitor, reload and message handling), since nothing in
  the source orders them.
- Allocation, reference counts and free, including the static storage of the first templates, and
  slices preallocated for a count that the datagram claims.
- `reopenSignal`, `delete_signal_from_memory` and the scan at `syslogs/signals/process.c:80-89`, whose result nothing uses.
- Stored records that this service did not write: texts that fill an array to the last byte, lists longer than their
  array, members that are missing or no strings. The model cuts or skips them; the source leaves texts unterminated or
  dereferences NULL.
- `SignalEngine.Engine.LoadSignalRules`: a text longer than its array is cut in the model, and runs on into the next one in
  the source; the database columns hold at most 255 characters. The description and number of a rule are not modelled.
- JSON reals, the text form of JSON, and the time and regex library functions of the consumers.
- The bulk flush thread: with a threshold of one event it finds nothing to send.
- `SignalHistory.IndexMirrorsTable`: stated for runs without restarts, because a restart can break it; `IndexAgreesExactly`
  says exactly when, for all runs.
- What the program does after it has written outside a buffer (`LargeIntegers.PreprocessLargeIntegers`,
  `NetFlowCollector.Collector.InitializeStaticTemplate` and `SignalSpec.MatchListOverflows` say when it does); the model's
  match list has room.
- Whether the bytes of a syslog line are well-formed UTF-8, which JSON asks for as well.
- `SignalLifecycle.EveryLifeIsInOrder`: stated for runs without restarts, because a restart takes a cooling signal back to
  warmUp or open; `DocumentsAreOrderly` says what restarts keep.
- The worker and receiver loops of the NetFlow consumer are transitions of the pipeline, not methods; parsing a
  message there only logs it. `main` returning early when Kafka cannot be set up is not modelled.
- `SFlowReader.DecodeFlowRecords`: one record loop stands for the two equal ones of the source; error texts with record numbers
  are not modelled.
- IP addresses and flow records as text, the license date, and the near copy of the engine for traps, whose Redis store and
  load keys differ.
- The older Python engine, the mnemonic and trap caches, the topology normaliser, the web backend and frontend.
