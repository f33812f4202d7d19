# Wrt-Wol: verified model

Wrt-Wol wakes computers on a LAN. Commands reach a router through Feishu, Telegram or a self-hosted
relay, pass one command layer, and leave as Wake-on-LAN datagrams. This project models that path and
proves what it guarantees.

- `Wrappers.dfy`, `GoStrings.dfy`, `Decimal.dfy`: the parts of Go's `strings` and `strconv` the program
  relies on, defined (not assumed), with the laws the other modules need.
- `Config.dfy`, `InitScript.dfy`: the device table, its text formats on the Go and on the shell side, and
  start-up normalisation over the reused slice.
- `Wol.dfy`, `Router.dfy`: the magic packet, sending, and waking a list of devices in turn.
- `Commands.dfy`: the command layer. Functions say what a command means; `Handler` runs it.
- `FrontEnds.dfy`: mention stripping and allowlists of both chat front ends.
- `Telegram.dfy`, `TelegramQueue.dfy`, `TelegramRestarts.dfy`: dispatching and the offset loop as it runs; the
  bot against the remote update queue, over all runs; what its restarts repeat and what they lose.
- `Relay.dfy`, `RelayInvariant.dfy`, `RelaySafety.dfy`, `RelayProgress.dfy`, `RelayNodes.dfy`: the relay as
  a transition system (server, client, lossy network, restarts on both sides, death in the middle of a
  wake), its inductive invariant, the theorems over every run, and the two programs as they run.
- `Concurrency.dfy`: several front ends calling one handler at once, packet by packet.

A run (`Behavior`) is any finite sequence of enabled steps in any interleaving. Reports may be delivered
late, repeatedly or never, polls may be lost before or after being served, and an answer served by one
server life may arrive in the next. Both the relay's client and the Telegram bot may die at any moment, the
one with part of a wake's packets sent, the other with part of a batch dispatched. Socket outcomes are a
function `Link` from the attempt number to success or an error text; timestamps are opaque texts passed in.

The methods are proved against functions, and each of those functions has a lemma (most end in `Meaning`) that
says what it computes in other terms: characters, positions, literals and the laws of the text formats.

Places where the code does less than its documentation or name suggests, each with the exact condition:

- The relay keeps only the newest command (`README.md:184`), and its ids start again after a server restart.
  A client that still holds a larger id, or an equal one from an earlier server life, hears nothing:
  `RelayProgress.QuietRoundsConverge` says exactly when the newest command has been executed,
  `RelayProgress.EqualIdHidesCommand` is a whole run in which it is not.
- Telegram's drop-pending phase fetches one batch. A call that brings all it can leaves nothing exactly when
  no more than 100 updates were waiting: `TelegramRestarts.DropSkipsOneBatch`; `FullDropLeavesSome` is the
  failing run.
- A restarted bot may dispatch an update again or discard one unseen. `TelegramRestarts.DropRepeatsOrLoses`
  gives the number a drop call has to skip to do neither, and `RepeatsIffDropFellShort` says of every run
  whether some update was dispatched twice; `OneUpdateTwice` is such a run.
- `drop_pending_updates` in the YAML file has no effect, since the defaults force it on
  (`internal/config/config.go:286`); only the environment can switch it off: `Config.Loader.Load`.
- The init script does not escape the separators of its device list: `InitScript.DevicesRoundTrip` says for
  every list whether it is read back as meant, `InitScript.BarInNameBreaksRoundTrip` is a failing one.

## Model

| member | source | states |
|---|---|---|
| RelaySafety.ExecutionsFollowTheQueue | internal/selfhost/client.go:45-78 | over all interleavings, losses and restarts no execution is of an older command than an earlier one, and ids strictly increase within one client life |
| RelaySafety.ExecutedTargetIsTheQueuedOne | internal/selfhost/server.go:155-164 | every executed target is the text queued under exactly that id, trimmed, or "all" when it was blank, and that id was the newest when its poll was served |
| Relay.NormalizeTargetIdempotent | internal/selfhost/client.go:63-66 | the client's second normalisation of the target changes nothing |
| Relay.NormalizeTargetMeaning | internal/selfhost/server.go:215-221 | a queued text is kept trimmed, or as "all" when it has no fields; the words kept are the fields queued, or "all" |
| Relay.RelayOutcomeIsWake | internal/selfhost/client.go:63-68 | whatever the target, the client asks the handler to wake its fields, or "all" when it has none, as selfhost, relay, server |
| Relay.PollComparesHeldID | internal/selfhost/client.go:83 | an int64 id survives its trip as decimal text, so the server compares the very id the client held |
| RelaySafety.OnlyTheNewestRunsAgain | internal/selfhost/client.go:43-73 | a command runs a second time only as the first execution of a new client life and only while it is the newest |
| RelaySafety.ExecutionsAreBounded | internal/selfhost/client.go:62-73 | executions never outnumber commands ever queued plus client restarts |
| RelaySafety.NoSilentLoss | internal/selfhost/server.go:206-213 | within one server life each id up to lastID was executed or was already replaced when the poll for the larger executed id was served, and not yet queued at any earlier execution |
| RelaySafety.WireIsExecutedCommands | internal/selfhost/client.go:62-73 | the wire is, in order of execution and nothing else, what each executed command put there: the wake-up datagrams of the devices the fields of the text queued under its id resolve to, of all devices when it was blank, up to the first failure or to the client's death |
| RelaySafety.LastReportIsHonest | internal/selfhost/server.go:187-196 | any report the server shows reads "command", the id of a command the client ran to its end, "ok" exactly when all packets of the selected devices left and the record was written and "failed" otherwise, and the reply |
| Relay.ReportLineShowsIdAndOutcome | internal/selfhost/server.go:187-191 | the shown line determines the id and the outcome it was made from |
| Relay.ReportLineMeaning | internal/selfhost/server.go:187-191 | the shown line is "command", the id, "ok" or "failed" as reported, and the message |
| RelayProgress.QuietRoundsConverge | internal/selfhost/client.go:52-76 | over any stretch with a delivered poll, nothing queued and nobody restarting, the client ends at max(lastID, commandID) after exactly one execution, of the newest command with its queued target, if the server was ahead and none otherwise; the newest command has been executed by this client life if and only if the server was ahead, or the ids were equal and the last execution was of this server life |
| RelayProgress.EqualIdHidesCommand | internal/selfhost/server.go:46-48 | a run from the start in which lastID ends equal to commandID although the newest command has not been executed |
| RelayProgress.ClientNeverAhead | internal/selfhost/server.go:160-164 | within one server life 0 <= lastID <= commandID |
| RelayProgress.GapNeverGrows | internal/selfhost/client.go:70-76 | commandID - lastID never grows by a step other than queueing or a restart |
| RelayProgress.MuteUntilCounterPasses | internal/selfhost/client.go:62-73 | a surviving client holding k, whatever it is doing, executes and sends nothing until the server's counter exceeds k, except for one command that was already on its way to it |
| RelayProgress.ServerRestartHidesCommand | internal/selfhost/server.go:46-48 | after any server restart under a client that has executed something, the first new command is polled and not executed |
| RelayInvariant.BehaviorInv | internal/selfhost/server.go:206-213 | the inductive invariant holds in every state of every run |
| RelayNodes.Server.QueueWake | internal/selfhost/server.go:206-221 | the slot becomes the next int64 id and the trimmed text, or "all" when the text is blank |
| RelayNodes.Server.HandlePoll | internal/selfhost/server.go:143-165 | answers with the slot exactly when its id exceeds the parsed last id, a parse error counting as 0 or the nearest bound |
| RelayNodes.Server.HandleReport | internal/selfhost/server.go:167-200 | the line of the latest report to arrive is shown, "ok" for ok and "failed" otherwise, whatever command it is about |
| RelaySafety.PageShowsNewestCommand | internal/selfhost/server.go:87-105 | in every state of every run the id and the target a page snapshot shows are those of the newest command queued in this server life, its text trimmed or "all" when blank |
| RelayNodes.Client.Turn | internal/selfhost/client.go:52-76 | one turn has the effect of the round function on lastID, record, wire and reports |
| RelayNodes.RoundMeaning | internal/selfhost/client.go:62-73 | a round executes exactly a wake command newer than the last, as a wake of the target's fields or "all", reports it as ok exactly when the wake went through, and advances lastID also when the report is lost |
| RelayNodes.Client.Run | internal/selfhost/client.go:36-78 | the loop is the fold of its rounds |
| RelayNodes.RoundsMeaning | internal/selfhost/client.go:45-78 | rounds take effect in order, each on what the ones before it left |
| RelayNodes.TurnIsPath | internal/selfhost/client.go:52-76 | a turn of the loop, from sending the poll and whether it fails or is answered, is a path of steps of the transition system from idle to idle with the same effect |
| Commands.MatchFindsDesignated | internal/commands/handler.go:124-162 | the search returns device i if and only if the target designates it: its number, else the first device whose name or MAC equals the target up to case, else the only one whose name holds it up to case |
| Commands.MatchFailureMeaning | internal/commands/handler.go:126-161 | a target that finds nothing is blank, a number out of range, or a name held by no device name or by several, and the error says which, with the holders in order |
| Commands.ResolveFailsAtFirstBadTarget | internal/commands/handler.go:95-112 | resolution fails exactly when there is no device or a target of a list that is not the one word "all" in any case fails, with the first failing target's error |
| Commands.ResolveSelectsFirstOccurrences | internal/commands/handler.go:95-122 | a successful resolution is non-empty and distinct, covers every target, is in order of first mention, and is the full list for no target or the one word "all" in any case |
| Commands.ReissueByNumber | internal/commands/handler.go:130-135 | naming the selected devices by their numbers selects the same devices in the same order, whatever their names |
| Commands.AcceptedWakeIsComplete | internal/commands/handler.go:77-93 | the reply carries the good mark exactly when every chosen packet left, and exactly then the record is written |
| Commands.AcceptedMark | internal/selfhost/client.go:69 | wakes are answered with the good or the bad mark, unknown commands with theirs, and only the good mark passes the client's prefix test |
| Commands.WakeMeaning | internal/commands/handler.go:77-93 | a wake sends the selected devices' datagrams in order of selection up to the first failure, replies with exactly those devices and replaces the record if and only if all of them left, and does neither when resolution fails |
| Commands.HandleIgnoresSpacing | internal/commands/handler.go:35-41 | white space around and between the fields of the text makes no difference to reply, packets or record |
| Commands.HandleMeaning | internal/commands/handler.go:35-56 | the first field up to an '@', in any case, picks the command and the other fields are its arguments; only a wake sends or records, every other command has its own reply |
| Commands.Handler.MatchDevice | internal/commands/handler.go:124-162 | the two searching loops compute the three-tier match |
| Commands.Handler.SelectEach | internal/commands/handler.go:105-119 | the loop with its seen map computes first-occurrence selection by index |
| Commands.Handler.ResolveTargets | internal/commands/handler.go:95-122 | returns the chosen devices and their record title, or the error |
| Commands.Handler.RecordLast | internal/commands/handler.go:200-210 | the record becomes the time, the platform with the user id if there is one, and the title, over the previous one |
| Commands.Handler.WakeDevices | internal/commands/handler.go:77-93 | reply, packets and record are the wake outcome's |
| Commands.Handler.Handle | internal/commands/handler.go:35-56 | reply, packets and record are the outcome of the call the text stands for |
| Concurrency.LastShowsLatestRecord | internal/commands/handler.go:191-198 | under any interleaving /last shows no record exactly when none was written before, otherwise the latest one |
| Concurrency.RecordsFollowCompleteWakes | internal/commands/handler.go:86-92 | a record is written only after its caller put the packets of all its devices on the wire, in order, once each |
| Concurrency.HandleIsPath | internal/commands/handler.go:35-93 | an uninterrupted call of the handler is a path of the concurrent system's steps with the same reply, packets and record |
| Router.SendWoLDevices | cmd/feishu-wol/main.go:137-156 | sends in order, stops at the first failing device, and what was sent stays sent |
| Router.SendWoLMeaning | cmd/feishu-wol/main.go:137-156 | what is sent are the devices' frames with their own interface, broadcast address and port or the defaults, up to the first malformed address or failing socket; the error names that device and the cause |
| Router.FirstFailureIsFirst | cmd/feishu-wol/main.go:151-153 | the stopping place is the least device whose packet does not leave |
| Wol.NewMagicPacket | internal/wol/wol.go:17-43 | accepts exactly 17 characters, a ':' or '-' after every second hex digit, and returns six FF bytes followed by sixteen copies of the six bytes the digits spell |
| Wol.MacErrorMeaning | internal/wol/wol.go:20-31 | a refused address is refused for its number of parts, or for its first part that is not two hex digits |
| Wol.FillPacket | internal/wol/wol.go:33-41 | writes FF at positions 0 to 5 and octet (k-6) mod 6 at every position k from 6 to 101 |
| Wol.SameFrameIffSameAddress | internal/wol/wol.go:17-43 | two accepted addresses give one frame exactly when they agree up to case and separator |
| Wol.PacketInjective | internal/wol/wol.go:38-41 | the packet determines the six octets |
| Wol.Send | internal/wol/wol.go:58-79 | tries every address with defaults filled in and joins the errors |
| Wol.NoErrorIffAllSent | internal/wol/wol.go:69-78 | every address is either sent or reported, and no error means all were sent |
| Wol.SendMeaning | internal/wol/wol.go:58-79 | exactly the well-formed addresses whose socket calls succeed are sent their frame, in order, with the given options or the defaults |
| Wol.ErrorsMeaning | internal/wol/wol.go:69-78 | exactly the other addresses are reported, in order, each with its cause |
| Telegram.OffsetAfterIsMax | internal/telegram/bot.go:86-90 | the fold over a batch is max(offset, 1 + largest id) |
| Telegram.OffsetAfterIgnoresOrder | internal/telegram/bot.go:113-116 | the fold does not depend on the order of the batch |
| Telegram.Bot.Consume | internal/telegram/bot.go:113-118 | every update of a batch is handled in order, also one below the offset, and the offset is folded |
| Telegram.Bot.Process | internal/telegram/bot.go:122-158 | one handler call if and only if the update has text and nobody is listed or its sender or chat is; the call names platform, sender and chat, and carries the fields of the message with the mention cut |
| Telegram.Bot.Run | internal/telegram/bot.go:77-120 | after the optional drop call the handled updates are the delivered batches, failed polls adding nothing |
| Telegram.DeliveredMeaning | internal/telegram/bot.go:96-119 | batches count in the order of their polls, a failed poll counts for nothing |
| TelegramQueue.ExactlyOncePerLife | internal/telegram/bot.go:96-119 | at every moment of every run, also inside a batch, the updates dispatched in this life are exactly those with ids in [start, offset), ascending, once each |
| TelegramQueue.FailedPollIsHarmless | internal/telegram/bot.go:103-111 | a failed poll, seen by the remote or not, loses and repeats nothing |
| TelegramQueue.BatchIsPath | internal/telegram/bot.go:113-118 | dispatching a batch to its end is a path of single steps with the effect of `Bot.Consume` |
| TelegramRestarts.DropSkipsOneBatch | internal/telegram/bot.go:81-94 | the drop call skips exactly its one batch; when it brings all it can, everything waiting is skipped if and only if at most 100 were waiting |
| TelegramRestarts.FullDropLeavesSome | internal/telegram/bot.go:82 | for every k above 100, a run in which a full drop call leaves k - 100 of k waiting updates to be dispatched |
| TelegramRestarts.UnconfirmedMeaning | internal/telegram/bot.go:103-118 | the window from the confirmed bound to the furthest dispatched id holds exactly the updates that were dispatched and are still served, never more than one batch |
| TelegramRestarts.DropRepeatsOrLoses | internal/telegram/bot.go:81-94 | of the waiting updates exactly the first ones, as many as are dispatched and unconfirmed, were dispatched before: a drop call of d repeats some if and only if d is below that number and discards some unseen if and only if d is above it |
| TelegramRestarts.LifeRepeatsIffDropFellShort | internal/telegram/bot.go:80-119 | a life that dispatches anything dispatches something an earlier life did, and that first, if and only if it skipped fewer updates than were dispatched and unconfirmed |
| TelegramRestarts.RepeatsIffDropFellShort | internal/telegram/bot.go:80-119 | over every run, some update was dispatched twice if and only if some life whose drop call fell short in this way went on to dispatch |
| TelegramRestarts.NeverTwiceAcrossRestarts | internal/telegram/bot.go:80-119 | if every life's drop call succeeds in full, no update is dispatched twice in any life |
| TelegramRestarts.ConfirmedIsFinal | internal/telegram/bot.go:103 | an update below the confirmed bound is never dispatched from then on, in any life |
| TelegramRestarts.UnconfirmedCanStillRun | internal/telegram/bot.go:80-119 | every arrived update at or above the confirmed bound can still be dispatched, whatever state the bot is in |
| TelegramRestarts.SkippedDropRepeats | internal/telegram/bot.go:82-85 | from every reachable state a restart without a drop call and one poll dispatch again exactly the unconfirmed updates |
| TelegramRestarts.OneUpdateTwice | internal/telegram/bot.go:82-85 | a run from the start that dispatches one update in two lives |
| FrontEnds.NormalizeMessageCommand | internal/telegram/bot.go:177-188 | the fields of the result are those of the text with the first one cut at its '@', or dropped when it starts with one |
| FrontEnds.TelegramKeepsMeaning | internal/telegram/bot.go:177-188 | normalising keeps the call unless the first field starts with '@', and then leaves the call of the remaining fields |
| FrontEnds.FrontEndsAgree | internal/feishu/bot.go:170-174 | both front ends ask the same of the handler if and only if the first field is no mention, or the mention opens the text and only white space stands between it and the first plain space |
| FrontEnds.BareMentionDiffers | internal/feishu/bot.go:172-174 | a bare mention is help through Telegram and an unknown command through Feishu |
| FrontEnds.IsAllowed | internal/telegram/bot.go:160-175 | the two loops admit everyone when both lists are empty, otherwise exactly a listed user or chat |
| FrontEnds.PrintedAllowlistIsExact | internal/telegram/bot.go:131-134 | comparing ids as printed text admits exactly the listed numbers |
| Decimal.ParseOfFormat | internal/selfhost/server.go:153 | parsing a printed int64 gives it back |
| Decimal.FormatIntInjective | internal/telegram/bot.go:131-134 | distinct integers print differently |
| Decimal.NumeralsAreRead | internal/commands/handler.go:130 | an optional sign and digits are read as the number they denote, out of range as the nearest bound or, by Atoi, as no number |
| Decimal.OnlyNumeralsAreRead | internal/selfhost/server.go:153 | anything else is no number, and counts as 0 where the error is ignored |
| Decimal.FormatIntMeaning | internal/selfhost/client.go:83 | integers print as decimal numerals without superfluous zeros or plus sign |
| InitScript.DevicesRoundTrip | openwrt/files/etc/init.d/feishu-wol:39-50 | for every list of sections, what the script prints reads back as the trimmed devices with a MAC if and only if each section meets its condition: with a MAC, no ';' or '\|' in the first five texts, a port that reads the same up to its first separator and no device after a ';' in it; with a blank MAC, no device in its record |
| InitScript.CleanDevicesReadBack | internal/config/config.go:217-251 | without separators in the texts the round trip holds also for blank MACs and unreadable ports |
| InitScript.BarInNameBreaksRoundTrip | openwrt/files/etc/init.d/feishu-wol:48 | a concrete device name that breaks it |
| InitScript.ItemsRoundTrip | openwrt/files/etc/init.d/feishu-wol:38 | a comma list reads back as its trimmed items, blank ones dropped |
| InitScript.StartService.AppendDevice | openwrt/files/etc/init.d/feishu-wol:39-50 | appends one record with ';' between records, and nothing for an empty MAC |
| InitScript.StartService.Collect | openwrt/files/etc/init.d/feishu-wol:63-64 | the callbacks accumulate the printed lists |
| Config.ParseDevices | internal/config/config.go:217-251 | the loop returns the devices of the records, those without a MAC left out |
| Config.RecordMeaning | internal/config/config.go:219-248 | a record is a device when it has a MAC: name, MAC, IP, interface, broadcast address and port are its fields in this order, trimmed, empty past the end, the port 0 unless a positive number |
| Config.DevicesAcrossSemicolon | internal/config/config.go:219 | records on either side of a ';' are read by themselves |
| Config.SplitCSV | internal/config/config.go:253-261 | the loop returns the trimmed items that are not blank |
| Config.CsvMeaning | internal/config/config.go:253-261 | a comma separates, and an item is read trimmed or, when blank, not at all |
| Config.LoadedDevicesComplete | internal/config/config.go:273-330 | whatever file and environment say, every device ends with a non-blank name, interface, broadcast address and non-zero port |
| Config.LoadedTable | internal/config/config.go:95-112 | end to end, the environment's device table stands before the file's, devices keep what they state, and each gap is filled from the environment, else the file, else the built-in value; a blank name becomes the device's number |
| Config.LoadedAddresses | internal/config/config.go:298-310 | with no table, exactly the non-blank addresses of the environment's list, else the file's, become devices, named by their place in the list and filled the same way |
| Config.NormalizeTouchesOnlyIncomplete | internal/config/config.go:313-325 | start-up leaves a device of a given table unchanged if and only if it was complete |
| Config.NormalizedMacs | internal/config/config.go:298-330 | the MAC list is the non-empty device MACs in order, or the trimmed list that stood in for the table |
| Config.PresentMacsMeaning | internal/config/config.go:326-328 | each device contributes its address, in order, unless it is empty |
| Config.NormalizeIdempotent | internal/config/config.go:298-330 | normalising again changes nothing |
| Config.Loader.AppendMac | internal/config/config.go:326-328 | appends to the truncated slice, in place while its array has room |
| Config.Loader.NormalizeDevices | internal/config/config.go:298-330 | the in-place loops over the reused backing array compute the normalised table |
| Config.Loader.ApplyEnv | internal/config/config.go:149-165 | environment values win where they are present and readable |
| Config.Loader.Load | internal/config/config.go:95-112 | defaults, environment and normalisation in that order; drop-pending is on unless the environment says otherwise |

## Left out

- HTTP, JSON, HTML, redirects, form parsing, sockets and interface lookup: each handler is the state step it performs, its success or failure a free outcome.
- Tokens and authorisation headers: the requests modelled are authorised ones.
- The Feishu SDK, chat replies and proxies: foreign calls.
- Real time: sleeps and poll intervals are absent, timestamps are opaque texts, and the server's two displayed times are not kept.
- Message wording: replies keep their leading mark and the devices, ids and names they decide on; `%q` quoting is a plain copy.
- Unicode case folding: folding is ASCII only, other characters stand for themselves; white space is the full Unicode property. Texts are sequences of Unicode scalar values, not bytes.
- RelayNodes.Client.Run: covers any finite stretch of the endless loop; cancellation ends it between rounds.
- Telegram.Bot.Run: covers any finite stretch of the endless loop; cancellation ends it between polls.
- Relay: a server life queues fewer than 2^63 commands (the wrap itself is in `RelayNodes.Server.QueueWake`).
- Commands.ReissueByNumber: device lists no longer than the largest 64-bit int, as every Go slice is; `int` is taken as 64 bits wide.
- TelegramQueue: update ids grow; the random restart of ids after a week without updates is not modelled. An update whose handling was cut short by a death counts as dispatched.
- Concurrency: the handler's calls run to their end or stay where they are; a process death in the middle of a wake is in the relay system only.
- YAML decoding, `ParseBool`, environment lookup, `validate`, logging, flags and signals: plumbing or easy members.
- The other environment overrides and allowlist accumulators of the init script: the same shape as the modelled ones.
