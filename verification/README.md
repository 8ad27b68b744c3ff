# CRTicketMonitor core, modelled in Dafny

CRTicketMonitor watches the 12306 left-ticket service for one route and date.
This project models the part of the program that decides things. The network,
the console and the files are out of scope.

- **Per-record evaluation** (`monitor.dfy`, module `Monitor`), from `parse_and_print` and `classify_train` in `main.py`. It covers:
  - splitting a raw `|`-separated record;
  - classifying the train as ordinary, high-speed or other, using a custom mapping, the prefix letter, and a number threshold for D/C trains;
  - the type, train, departure-station and arrival-station filters;
  - reading the eight seat fields, with an empty field shown as `--`;
  - the "has a ticket" test and the S-train highlight rule;
  - the available-seat dictionary;
  - collecting all tickets and the tickets with seats.
- **Configuration merge** (`config.dfy`, module `ConfigMerge`): `_deep_update`, which lays the loaded file over the defaults.
- **Notification manager** (`notification.dfy`, module `Notification`, class `NotificationManager`). It covers:
  - the gate: target list, then cooldown (skipped for a newly seen train), then minimum ticket count;
  - the title and message text;
  - dispatch to every usable channel, with its result strings;
  - the last-notified stamps and the set of trains seen so far.
- **Query history** (`history.dfy`, module `History`, class `QueryHistory`). It covers:
  - appending one record per query;
  - `records[-limit:]`;
  - the statistics over the last 1000 records: the query count, the count with tickets, and the ten most frequent trains. The ranking is a stable sort of the tally in first-seen order, in descending order.
- **Shared pieces**:
  - `base.dfy`: the `TicketInfo` and `NotificationConfig` records, and the channel interface.
  - `util.dfy`: `Option`, and the string operations the code uses (`isdigit`, `int`, the first `\d+` match, `split`/`join`, `upper`).

## Notes on the code's behaviour

- **S-train rule.** For an S-prefixed train, the special rule only decides the highlight of the printed train number. Whether the train counts as having tickets is still the general seven-field test (main.py:261 and 297). The S rule's second case can never fire once its first case has failed. Its net effect is "second class or standing has tickets" (`Monitor.SRuleGreen`).
- **Classification.** It looks only at the first character, upper-cased, and at whether the whole number is made of digits. The number used for D/C trains is the first run of digits anywhere in the number.
- **`get_recent(0)`.** It returns every record, because `records[-0:]` is the whole list. A negative limit drops that many records from the front.

## Model

| member | source | states |
|---|---|---|
| Strings.FirstDigitRun | main.py:167-168 | None exactly when the number holds no digit; otherwise the result is a maximal digit run with no digit before it |
| Strings.SplitJoin | main.py:232 | splitting on the bar separator gives back exactly the fields that were joined, when no field contains a bar |
| Monitor.ClassifyTrain | main.py:160-178 | a custom mapping always wins; fails exactly on an empty number; ordinary iff K/T/Z prefix, all digits, or a D/C train in smart mode at or under the threshold; high-speed iff G, or D/C in official mode or over the threshold; other otherwise |
| Monitor.Highlight | main.py:264-280 | whether the number is shown highlighted: the S rule for S trains (see SRuleGreen, STrainStandingOnly), the ticket test otherwise |
| Monitor.SeatsOf | main.py:245-252 | each of the eight seat texts is the raw field, or `--` when the field is empty; none is empty |
| Monitor.HasTicket | main.py:261 | true iff one of the first seven seat texts (all but standing) is not a no-ticket value |
| Monitor.SRuleGreen | main.py:264-275 | the S-train highlight is on iff second class or standing has tickets |
| Monitor.STrainStandingOnly | main.py:261-280 | an S train whose only tickets are standing ones is highlighted, yet counts as having no ticket and records no seats |
| Monitor.OfferedExact | main.py:283 | the filtered seat list is an in-order sub-list holding exactly the entries whose value is not a no-ticket value |
| Monitor.AvailableSeatsExact | main.py:257-283 | the available seats are, in dictionary order, exactly the seat kinds whose text shows tickets |
| Monitor.EvaluateRecord | main.py:231-298 | the loop body for one record: fail, skip or a row; what each outcome means is stated by EvaluateRecordOutcomes |
| Monitor.EvaluateRecordOutcomes | main.py:231-298 | a row passed every filter and carries the record's number, its has-ticket and highlight verdicts and, iff a date is given, the ticket built from the record's stations, times and seats; a skipped record was rejected by a filter, by the type or the train filter when it has fewer than 8 fields; a record fails exactly when it has fewer than 4 fields, its number is empty and unmapped, or it passes the type and train filters and then has fewer than 8 fields, or passes every filter and has fewer than 33 fields |
| Monitor.CollectedMembers | main.py:294-298 | a ticket is collected iff some record produced it (with tickets, in the available list) |
| Monitor.AvailableWithinAll | main.py:294-298 | the available list is an in-order sub-list of the list of all tickets |
| Monitor.ParseAndPrint | main.py:219-302 | fails iff some record fails; otherwise returns all tickets or only those with tickets, built record by record in order |
| ConfigMerge.Merged | main.py:119-125 | the merged dictionary, key by key; DeepUpdate computes it, MergedCovers, MergedPreserves and MergedIdempotent state what it keeps |
| ConfigMerge.DeepUpdate | main.py:119-125 | the loop over the loaded keys yields the key-by-key merge |
| ConfigMerge.MergedCovers | main.py:119-125 | every loaded setting is in force after the merge, at every depth |
| ConfigMerge.MergedPreserves | main.py:119-125 | every default the loaded file does not mention survives unchanged, at every depth |
| ConfigMerge.MergedSelf | main.py:119-125 | merging a dictionary into itself changes nothing |
| ConfigMerge.MergedIdempotent | main.py:119-125 | merging the same file twice equals merging it once |
| Notification.TotalTickets | notification/manager.py:80 | the total is at least every single seat's count (a non-digit value counting as 99) |
| Notification.ShouldNotify | notification/manager.py:61-84 | the gate; its stages are stated by TargetFilterBlocks, CooldownWindow, NewTrainBypassesCooldown and MinimumTickets |
| Notification.TargetFilterBlocks | notification/manager.py:69-71 | with only-target on, a train outside the list (or with no list) is never notified, even when new |
| Notification.CooldownWindow | notification/manager.py:74-77 | a repeat is blocked one second before the cooldown ends, and from its end on is decided as if forced |
| Notification.NewTrainBypassesCooldown | notification/manager.py:73-77 | a new train's decision does not depend on the last-notified stamps or the clock |
| Notification.MinimumTickets | notification/manager.py:79-82 | a train whose seats sum below the minimum is never notified, forced or not; one non-digit seat value makes the sum at least 99 |
| Notification.Title | notification/manager.py:93-96 | the new or repeat title; TitleDetermines states that it identifies the train and the flag |
| Notification.TitleDetermines | notification/manager.py:93-96 | different trains or a different new/repeat flag always give different titles |
| Notification.FormatTicketMessage | notification/manager.py:111-123 | the message text; MessageLines states its lines |
| Notification.MessageLines | notification/manager.py:111-123 | the message splits into the five header lines, then one line per seat (or one empty line when there is none) |
| Notification.Dispatch | notification/manager.py:99-106 | the per-channel results of one send; DispatchOutcomes states its keys and values |
| Notification.AvailableNamesOrder | notification/manager.py:130 | the usable channel names are one per usable channel, in registration order, repeated names kept |
| Notification.DispatchOutcomes | notification/manager.py:99-106 | the result has a key iff some usable channel has that name, and holds the outcome text of the last usable channel with that name |
| Notification.Run | notification/manager.py:45-54 | the results and stamps of one call over the tickets; RunResults and RunStamps state them, NotifyTicketAvailable is proved to compute them |
| Notification.RunResults | notification/manager.py:45-54 | a train is in the results iff one of its tickets passed the gate, newness being judged against the trains seen before the call and the cooldown against the stamps as they stood before the call |
| Notification.RunValues | notification/manager.py:50-54 | a notified train's results are the dispatch of its last ticket that passed the gate (against the stamps made before that ticket), under the new-train title iff the train was not seen before the call |
| Notification.RunStamps | notification/manager.py:108 | stamps are added exactly for the notified trains, each with the call's time; every other stamp is kept |
| Notification.NotificationManager.constructor | notification/manager.py:13-27 | no channels, no stamps, no seen trains; the four settings with their defaults (true, 300, false, 1) and no target list |
| Notification.NotificationManager.RegisterChannel | notification/manager.py:29-34 | the channel is appended at the end |
| Notification.NotificationManager.SetTargetTrains | main.py:319-320 | only the target list of the configuration changes |
| Notification.NotificationManager.SendNotification | notification/manager.py:86-109 | the results are those of the dispatch over the channels in order, with the new/repeat title and the formatted message; the train is stamped with the call's time |
| Notification.NotificationManager.NotifyTicketAvailable | notification/manager.py:36-59 | disabled: no results and no change; enabled: results and stamps as in the run over the tickets, seen trains grow by this call's trains; the monitored count never goes down |
| Notification.NotificationManager.AvailableChannels | notification/manager.py:125-130 | one name per usable channel, in registration order, repeated names kept; a name is listed iff some usable channel carries it |
| Notification.MonitoredCountGrows | notification/manager.py:132-134 | a count over a larger seen set is no smaller |
| History.MakeRecord | logger/query_history.py:32-40 | the record's total count and trains are the query's, and its available count is the number of trains, positive iff there is any |
| History.Tail | logger/query_history.py:63 | the slice `records[-limit:]`; TailShape states its three cases |
| History.TailShape | logger/query_history.py:63 | a positive limit keeps the last min(limit, n) records, limit 0 keeps all, a negative limit drops the first -limit |
| History.QueryHistory.constructor | logger/query_history.py:14-20 | the history starts from whatever the history file holds |
| History.QueryHistory.Record | logger/query_history.py:22-46 | a successful write appends exactly the new record, creating the file if needed; a failed write changes nothing |
| History.QueryHistory.GetRecent | logger/query_history.py:48-63 | no file gives no records; otherwise the last `limit` records (100 when no limit is given) as slicing gives them |
| History.QueryHistory.GetStatistics | logger/query_history.py:65-84 | empty iff there is no record in the window; otherwise the window size (at most 1000), the count with tickets, and the first ten of the ranking |
| History.TrainCounts | logger/query_history.py:75-78 | the loop yields the trains in first-seen order and the tally of the window's trains |
| History.CountTrains | logger/query_history.py:77-78 | one record's trains extend the first-seen order and the tally by exactly those trains |
| History.TallyCounts | logger/query_history.py:75-78 | a train is tallied iff it occurs, and its count is its number of occurrences |
| History.FirstSeenOrder | logger/query_history.py:75-78 | the key order has each train once, in order of first occurrence |
| History.CountWithTickets | logger/query_history.py:82 | at most the number of records; zero iff no record found tickets; all iff every record did |
| History.SortDesc | logger/query_history.py:83 | the stable descending sort by count; SortDescMultiset, SortDescSorted, SortDescStable and SortDescDistinct state it |
| History.SortDescMultiset | logger/query_history.py:83 | sorting is a permutation |
| History.SortDescSorted | logger/query_history.py:83 | the sorted list has non-increasing counts |
| History.SortDescStable | logger/query_history.py:83 | entries with equal counts keep their original order |
| History.SortDescDistinct | logger/query_history.py:83 | sorting keeps keys distinct |
| History.Ranking | logger/query_history.py:75-83 | the whole ranking of a window; RankingCounts, RankingComplete and RankingOrder state it |
| History.RankingCounts | logger/query_history.py:75-83 | each train appears once in the ranking, with its number of occurrences |
| History.RankingComplete | logger/query_history.py:75-83 | every train that occurs in the window is ranked (with RankingCounts: ranked iff it occurs) |
| History.RankingOrder | logger/query_history.py:75-83 | the ranking lists every distinct train, by non-increasing count, ties in first-seen order |
| History.TopTrainsShape | logger/query_history.py:83 | the top list is the first min(10, distinct trains) entries of the ranking, non-increasing |
| History.TopTrainsDominate | logger/query_history.py:83 | a train left out of the top list has a count no larger than any listed train |

## Left out

- HTTP querying of 12306, the station dictionary download and cache, and the retry loop are not modelled. The station-code-to-name map is a parameter.
- The console table (PrettyTable), ANSI colour codes and all logging are not modelled. The highlight is a boolean.
- Loading and saving the configuration file and JSON parsing are not modelled. `_deep_update` is modelled on values.
- `ConfigMerge.DeepUpdate`: it returns the merged dictionary instead of updating it in place, so aliasing of nested dictionaries is not captured.
- The transports in `notification/channels.py` and `logger/ticket_logger.py` are not part of this model. A channel is a name, a fixed availability flag, and a send function returning sent, not sent, or a fault message.
- A channel's availability is a fixed flag. The code asks `is_available()` afresh on each dispatch.
- `Notification.Dispatch` and `Notification.Run`: the result dictionaries of `_send_notification` and `notify_ticket_available` are Dafny maps, so their key order is not modelled. Python keeps insertion order, which only the debug log iterates.
- A send is a function of the channel, title, message and ticket, so the same send always gives the same outcome. Real webhook and toast sends need not.
- The clock (`time.time()`, `datetime.now()`) is not modelled. `now` and `timestamp` are parameters, and one `now` serves a whole `notify_ticket_available` call. Times are integers, not floating-point seconds.
- The history file is held in memory; None means the file does not exist. Whether a write succeeds is a parameter, and other read errors are not modelled. Blank lines in the file and the JSON encoding of a line are not modelled.
- Strings are sequences of characters. `isdigit`, `\d` and `upper` are modelled for ASCII only, not for Unicode digits and letters.
- A configuration value that is present but null is not distinguished from a missing one.
- `Notification.NotificationManager.MonitoredCount` has no contract of its own. That it never decreases is stated by `NotifyTicketAvailable` and `MonitoredCountGrows`.
- An `IndexError` in record parsing (too few fields, or an empty train number) is modelled as a failed evaluation that makes the whole call fail. Other exceptions are not modelled.
