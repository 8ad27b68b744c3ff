/** The notification manager (notification/manager.py): it decides which
    trains with tickets are worth a notification (target list, cooldown, a
    first-seen bypass of the cooldown, a minimum ticket count), fans each
    notification out to the usable channels, isolating each channel's failure,
    and remembers when each train was last notified and which trains have ever
    been seen with tickets. The clock is the `now` argument. */
module Notification {
  import opened Wrappers
  import opened Strings
  import opened Base

  const DEFAULT_COOLDOWN_SECONDS: int := 300
  const DEFAULT_MIN_TICKETS: int := 1
  /** The count taken for a remaining-ticket text that is not a number ("有"). */
  const PLENTIFUL: nat := 99

  // ---------------------------------------------------------------------
  // The gate (_should_notify)
  // ---------------------------------------------------------------------

  /** `int(v) if v.isdigit() else 99`. */
  function SeatCount(v: string): nat {
    if IsDigits(v) then DecimalValue(v) else PLENTIFUL
  }

  /** The sum of the seat counts of a ticket. No seat class can raise it above
      the total, so one plentiful class ("有") alone reaches 99. */
  function TotalTickets(seats: seq<(string, string)>): (n: nat)
    ensures forall i :: 0 <= i < |seats| ==> SeatCount(seats[i].1) <= n
  {
    if seats == [] then 0
    else SeatCount(seats[0].1) + TotalTickets(seats[1..])
  }

  /** `last_notified.get(train_no, 0)`. */
  function LastTime(last: map<string, int>, trainNo: string): int {
    if trainNo in last then last[trainNo] else 0
  }

  /** `_should_notify`: the target-train filter, then the cooldown (skipped when
      `force`), then the minimum number of tickets. */
  predicate ShouldNotify(cfg: NotificationConfig, last: map<string, int>, t: TicketInfo, force: bool, now: int) {
    if cfg.onlyTargetTrains &&
       (cfg.targetTrains.None? || cfg.targetTrains.value == [] || t.trainNo !in cfg.targetTrains.value) then false
    else if !force && now - LastTime(last, t.trainNo) < cfg.cooldownSeconds then false
    else TotalTickets(t.availableSeats) >= cfg.minTickets
  }

  /** With "only target trains" set, a train outside a non-empty target list is
      never notified, and nothing is when the list is missing or empty. */
  lemma TargetFilterBlocks(cfg: NotificationConfig, last: map<string, int>, t: TicketInfo, force: bool, now: int)
    requires cfg.onlyTargetTrains
    requires cfg.targetTrains.None? || t.trainNo !in cfg.targetTrains.value
    ensures !ShouldNotify(cfg, last, t, force, now)
  {
  }

  /** A train notified at `stamp` stays quiet for `cooldownSeconds`: one second
      before the end of the window it is blocked, and from the end on only the
      target filter and the ticket minimum decide, as for a new train. */
  lemma CooldownWindow(cfg: NotificationConfig, last: map<string, int>, t: TicketInfo, stamp: int)
    ensures !ShouldNotify(cfg, last[t.trainNo := stamp], t, false, stamp + cfg.cooldownSeconds - 1)
    ensures forall later :: later >= stamp + cfg.cooldownSeconds ==>
      ShouldNotify(cfg, last[t.trainNo := stamp], t, false, later) == ShouldNotify(cfg, last, t, true, later)
  {
  }

  /** A train seen for the first time is not held back by any cooldown: the
      decision does not depend on the clock or on when anything was notified. */
  lemma NewTrainBypassesCooldown(cfg: NotificationConfig, last: map<string, int>, last': map<string, int>,
                                 t: TicketInfo, now: int, now': int)
    ensures ShouldNotify(cfg, last, t, true, now) == ShouldNotify(cfg, last', t, true, now')
  {
  }

  /** A train whose tickets sum below the minimum is never notified; one
      plentiful seat class counts as 99 tickets. */
  lemma MinimumTickets(cfg: NotificationConfig, last: map<string, int>, t: TicketInfo, force: bool, now: int)
    ensures TotalTickets(t.availableSeats) < cfg.minTickets ==> !ShouldNotify(cfg, last, t, force, now)
    ensures (exists i :: 0 <= i < |t.availableSeats| && !IsDigits(t.availableSeats[i].1)) ==>
      TotalTickets(t.availableSeats) >= PLENTIFUL
  {
  }

  // ---------------------------------------------------------------------
  // Title and message
  // ---------------------------------------------------------------------

  const NEW_TITLE_PREFIX: string := "【新发现有票】"
  const REPEAT_TITLE_PREFIX: string := "【CRTicketMonitor】"
  const TITLE_SUFFIX: string := " 有票啦！"

  /** The notification title: a distinct template for a newly seen train. */
  function Title(trainNo: string, isNew: bool): string {
    (if isNew then NEW_TITLE_PREFIX else REPEAT_TITLE_PREFIX) + trainNo + TITLE_SUFFIX
  }

  /** A title tells which train it is about and whether the train is new. */
  lemma TitleDetermines(a: string, newA: bool, b: string, newB: bool)
    requires Title(a, newA) == Title(b, newB)
    ensures a == b && newA == newB
  {
    var ta, tb := Title(a, newA), Title(b, newB);
    if newA == newB {
      var p := if newA then NEW_TITLE_PREFIX else REPEAT_TITLE_PREFIX;
      assert |a| == |b|;
      assert a == ta[|p|..|p| + |a|];
      assert b == tb[|p|..|p| + |b|];
    } else {
      TitleMark(a, newA);
      TitleMark(b, newB);
    }
  }

  /** The second character of a title tells the two templates apart. */
  lemma TitleMark(trainNo: string, isNew: bool)
    ensures Title(trainNo, isNew)[1] == if isNew then '新' else 'C'
  {
  }

  /** One seat line of the message. */
  function SeatLine(seat: (string, string)): string {
    "  - " + seat.0 + ": " + seat.1
  }

  function SeatLines(seats: seq<(string, string)>): (lines: seq<string>)
    ensures |lines| == |seats|
  {
    seq(|seats|, i requires 0 <= i < |seats| => SeatLine(seats[i]))
  }

  /** The five header lines of the message. */
  function HeaderLines(t: TicketInfo): seq<string> {
    ["车次: " + t.trainNo,
     "日期: " + t.date,
     "路线: " + t.fromStation + " → " + t.toStation,
     "时间: " + t.departureTime + " (历时: " + t.duration + ")",
     "有票坐席:"]
  }

  /** `_format_ticket_message`. */
  function FormatTicketMessage(t: TicketInfo): string {
    Join(HeaderLines(t), '\n') + "\n" + Join(SeatLines(t.availableSeats), '\n')
  }

  /** No field of the ticket contains a line break. */
  predicate SingleLineFields(t: TicketInfo) {
    && '\n' !in t.trainNo && '\n' !in t.date && '\n' !in t.fromStation
    && '\n' !in t.toStation && '\n' !in t.departureTime && '\n' !in t.duration
    && forall i :: 0 <= i < |t.availableSeats| ==>
         '\n' !in t.availableSeats[i].0 && '\n' !in t.availableSeats[i].1
  }

  /** Read line by line, the message is the five header lines and then one
      `  - seat: count` line per offered seat class, in the ticket's order
      (a single empty line when there is none). */
  lemma MessageLines(t: TicketInfo)
    requires SingleLineFields(t)
    ensures Split(FormatTicketMessage(t), '\n') ==
      HeaderLines(t) + if t.availableSeats == [] then [""] else SeatLines(t.availableSeats)
  {
    var h := HeaderLines(t);
    var s := SeatLines(t.availableSeats);
    forall i | 0 <= i < |h| ensures '\n' !in h[i] {
    }
    forall i | 0 <= i < |s| ensures '\n' !in s[i] {
      assert s[i] == "  - " + t.availableSeats[i].0 + ": " + t.availableSeats[i].1;
    }
    assert FormatTicketMessage(t) == Join(h, '\n') + ['\n'] + Join(s, '\n');
    SplitJoinThen(h, Join(s, '\n'), '\n');
    if s == [] {
      assert SeparatorIndex("", '\n') == 0;
    } else {
      SplitJoin(s, '\n');
    }
  }

  // ---------------------------------------------------------------------
  // Dispatch (_send_notification)
  // ---------------------------------------------------------------------

  /** The text recorded for one send attempt. */
  function OutcomeText(o: SendOutcome): string {
    match o
    case Sent => "成功"
    case NotSent => "失败"
    case Fault(message) => "异常: " + message
  }

  /** The per-channel results of sending one notification: each usable channel
      is tried in registration order and its outcome recorded under its name. */
  function Dispatch(chs: seq<Channel>, title: string, message: string, t: TicketInfo): map<string, string> {
    if chs == [] then map[]
    else
      var rest := Dispatch(chs[..|chs| - 1], title, message, t);
      var c := chs[|chs| - 1];
      if c.available then rest[c.name := OutcomeText(c.send(title, message, t))] else rest
  }

  /** Every usable channel is tried whatever the others did, and only usable
      channels appear; a channel's entry is the outcome of the last usable
      channel registered under its name. */
  lemma {:induction false} DispatchOutcomes(chs: seq<Channel>, title: string, message: string, t: TicketInfo)
    ensures forall n :: n in Dispatch(chs, title, message, t) <==>
      exists i :: 0 <= i < |chs| && chs[i].available && chs[i].name == n
    ensures forall i :: (0 <= i < |chs| && chs[i].available &&
      forall j :: i < j < |chs| ==> !(chs[j].available && chs[j].name == chs[i].name)) ==>
        Dispatch(chs, title, message, t)[chs[i].name] == OutcomeText(chs[i].send(title, message, t))
    decreases |chs|
  {
    if chs != [] {
      var init := chs[..|chs| - 1];
      DispatchOutcomes(init, title, message, t);
      assert forall i :: 0 <= i < |init| ==> init[i] == chs[i];
    }
  }

  /** The names of the usable channels, in registration order. */
  function AvailableNames(chs: seq<Channel>): (names: seq<string>)
    ensures |names| <= |chs|
    ensures forall n :: n in names <==> exists i :: 0 <= i < |chs| && chs[i].available && chs[i].name == n
    decreases |chs|
  {
    if chs == [] then []
    else
      var init := chs[..|chs| - 1];
      var c := chs[|chs| - 1];
      var rest := AvailableNames(init);
      assert forall i :: 0 <= i < |init| ==> init[i] == chs[i];
      if c.available then rest + [c.name] else rest
  }

  /** The positions of the usable channels, in increasing order: every usable
      position once, and nothing else. */
  ghost function UsableIndices(chs: seq<Channel>): (idx: seq<nat>)
    ensures forall k :: 0 <= k < |idx| ==> idx[k] < |chs| && chs[idx[k]].available
    ensures forall k, l :: 0 <= k < l < |idx| ==> idx[k] < idx[l]
    ensures forall i :: 0 <= i < |chs| && chs[i].available ==> i in idx
    decreases |chs|
  {
    if chs == [] then []
    else
      var init := chs[..|chs| - 1];
      var rest := UsableIndices(init);
      assert forall i :: 0 <= i < |init| ==> init[i] == chs[i];
      if chs[|chs| - 1].available then rest + [|chs| - 1] else rest
  }

  /** The name list has one entry per usable channel, in registration order,
      repeated names kept. */
  lemma {:induction false} AvailableNamesOrder(chs: seq<Channel>)
    ensures |AvailableNames(chs)| == |UsableIndices(chs)|
    ensures forall k :: 0 <= k < |UsableIndices(chs)| ==>
      AvailableNames(chs)[k] == chs[UsableIndices(chs)[k]].name
    decreases |chs|
  {
    if chs != [] {
      var init := chs[..|chs| - 1];
      AvailableNamesOrder(init);
      var names, names0 := AvailableNames(chs), AvailableNames(init);
      var idx, idx0 := UsableIndices(chs), UsableIndices(init);
      var added := if chs[|chs| - 1].available then [chs[|chs| - 1].name] else [];
      assert names == names0 + added;
      assert idx == idx0 + (if chs[|chs| - 1].available then [|chs| - 1] else []);
      forall k | 0 <= k < |idx0| ensures names[k] == chs[idx[k]].name {
        assert names[k] == names0[k] && idx[k] == idx0[k];
        assert init[idx0[k]] == chs[idx0[k]];
      }
    }
  }

  // ---------------------------------------------------------------------
  // One call of notify_ticket_available
  // ---------------------------------------------------------------------

  /** The train numbers of a list of tickets. */
  function TrainNos(tickets: seq<TicketInfo>): set<string> {
    set i | 0 <= i < |tickets| :: tickets[i].trainNo
  }

  /** The results so far and the last-notified times so far. */
  datatype RunState = RunState(results: map<string, map<string, string>>, last: map<string, int>)

  /** The loop of `notify_ticket_available` over a list of tickets: a train is
      new when it is not in `seen`; each ticket that passes the gate (against
      the times stamped so far) is dispatched and its train stamped with `now`. */
  function Run(chs: seq<Channel>, cfg: NotificationConfig, seen: set<string>, last0: map<string, int>,
               now: int, tickets: seq<TicketInfo>): RunState
  {
    if tickets == [] then RunState(map[], last0)
    else
      var s := Run(chs, cfg, seen, last0, now, tickets[..|tickets| - 1]);
      var t := tickets[|tickets| - 1];
      var isNew := t.trainNo !in seen;
      if ShouldNotify(cfg, s.last, t, isNew, now) then
        RunState(s.results[t.trainNo := Dispatch(chs, Title(t.trainNo, isNew), FormatTicketMessage(t), t)],
                 s.last[t.trainNo := now])
      else s
  }

  /** Whether some ticket of `train` passes the gate against the times before
      the call. */
  ghost predicate PassesBefore(cfg: NotificationConfig, seen: set<string>, last0: map<string, int>,
                               now: int, tickets: seq<TicketInfo>, train: string)
  {
    exists i :: 0 <= i < |tickets| && tickets[i].trainNo == train &&
                ShouldNotify(cfg, last0, tickets[i], train !in seen, now)
  }

  /** A train is in the results exactly when one of its tickets passes the
      gate against the times before the call: stamping a train during the call
      only affects later tickets of that same train, which is then already in
      the results. */
  lemma {:induction false} RunResults(chs: seq<Channel>, cfg: NotificationConfig, seen: set<string>,
                                      last0: map<string, int>, now: int, tickets: seq<TicketInfo>, train: string)
    ensures train in Run(chs, cfg, seen, last0, now, tickets).results <==>
            PassesBefore(cfg, seen, last0, now, tickets, train)
    decreases |tickets|
  {
    if tickets != [] {
      var init := tickets[..|tickets| - 1];
      var t := tickets[|tickets| - 1];
      RunResults(chs, cfg, seen, last0, now, init, train);
      var s := Run(chs, cfg, seen, last0, now, init);
      if PassesBefore(cfg, seen, last0, now, init, train) {
        var i :| 0 <= i < |init| && init[i].trainNo == train &&
                 ShouldNotify(cfg, last0, init[i], train !in seen, now);
        assert tickets[i] == init[i];
      } else {
        assert forall k :: 0 <= k < |init| ==> init[k] == tickets[k];
        assert PassesBefore(cfg, seen, last0, now, tickets, train) <==>
               t.trainNo == train && ShouldNotify(cfg, last0, t, train !in seen, now) by {
          if PassesBefore(cfg, seen, last0, now, tickets, train) {
            var i :| 0 <= i < |tickets| && tickets[i].trainNo == train &&
                     ShouldNotify(cfg, last0, tickets[i], train !in seen, now);
          }
        }
        if t.trainNo == train {
          RunStamps(chs, cfg, seen, last0, now, init);
          assert LastTime(s.last, train) == LastTime(last0, train);
        }
      }
    }
  }

  /** The ticket at position `j` passes the gate when the loop reaches it,
      against the times stamped by the tickets before it. */
  ghost predicate PassesAt(chs: seq<Channel>, cfg: NotificationConfig, seen: set<string>,
                           last0: map<string, int>, now: int, tickets: seq<TicketInfo>, j: nat)
    requires j < |tickets|
  {
    ShouldNotify(cfg, Run(chs, cfg, seen, last0, now, tickets[..j]).last, tickets[j],
                 tickets[j].trainNo !in seen, now)
  }

  /** Position `i` holds the last ticket of `train` that passed the gate. */
  ghost predicate LastSent(chs: seq<Channel>, cfg: NotificationConfig, seen: set<string>,
                           last0: map<string, int>, now: int, tickets: seq<TicketInfo>, train: string, i: nat)
  {
    && i < |tickets|
    && tickets[i].trainNo == train
    && PassesAt(chs, cfg, seen, last0, now, tickets, i)
    && forall j :: i < j < |tickets| && tickets[j].trainNo == train ==>
         !PassesAt(chs, cfg, seen, last0, now, tickets, j)
  }

  /** A ticket that did not pass, or is of another train, leaves the last
      passing ticket of `train` where it was. */
  lemma LastSentExtend(chs: seq<Channel>, cfg: NotificationConfig, seen: set<string>,
                       last0: map<string, int>, now: int, tickets: seq<TicketInfo>, train: string, i: nat)
    requires tickets != []
    requires LastSent(chs, cfg, seen, last0, now, tickets[..|tickets| - 1], train, i)
    requires tickets[|tickets| - 1].trainNo == train ==> !PassesAt(chs, cfg, seen, last0, now, tickets, |tickets| - 1)
    ensures LastSent(chs, cfg, seen, last0, now, tickets, train, i)
  {
    var n := |tickets| - 1;
    var init := tickets[..n];
    forall j | 0 <= j < n
      ensures PassesAt(chs, cfg, seen, last0, now, tickets, j) == PassesAt(chs, cfg, seen, last0, now, init, j)
    {
      assert tickets[..j] == init[..j];
    }
    assert tickets[i] == init[i];
    forall j | i < j < n && tickets[j].trainNo == train
      ensures !PassesAt(chs, cfg, seen, last0, now, tickets, j)
    {
      assert tickets[j] == init[j];
    }
  }

  /** The results of a notified train are those of dispatching its last ticket
      that passed the gate, under the new-train title when the train was not
      seen before the call. */
  lemma {:induction false} RunValues(chs: seq<Channel>, cfg: NotificationConfig, seen: set<string>,
                                     last0: map<string, int>, now: int, tickets: seq<TicketInfo>, train: string)
    requires train in Run(chs, cfg, seen, last0, now, tickets).results
    ensures exists i: nat :: (LastSent(chs, cfg, seen, last0, now, tickets, train, i) &&
      Run(chs, cfg, seen, last0, now, tickets).results[train] ==
        Dispatch(chs, Title(train, train !in seen), FormatTicketMessage(tickets[i]), tickets[i]))
    decreases |tickets|
  {
    if tickets != [] {
      var n := |tickets| - 1;
      var init := tickets[..n];
      var t := tickets[n];
      var s := Run(chs, cfg, seen, last0, now, init);
      if t.trainNo == train && ShouldNotify(cfg, s.last, t, t.trainNo !in seen, now) {
        assert PassesAt(chs, cfg, seen, last0, now, tickets, n);
        assert LastSent(chs, cfg, seen, last0, now, tickets, train, n);
      } else {
        RunValues(chs, cfg, seen, last0, now, init, train);
        var i: nat :| LastSent(chs, cfg, seen, last0, now, init, train, i) &&
          s.results[train] == Dispatch(chs, Title(train, train !in seen), FormatTicketMessage(init[i]), init[i]);
        assert tickets[..n] == init;
        LastSentExtend(chs, cfg, seen, last0, now, tickets, train, i);
        assert tickets[i] == init[i];
        assert Run(chs, cfg, seen, last0, now, tickets).results[train] == s.results[train];
      }
    }
  }

  /** The last-notified times change exactly for the trains in the results,
      to `now`; every other entry is kept. */
  lemma {:induction false} RunStamps(chs: seq<Channel>, cfg: NotificationConfig, seen: set<string>,
                                     last0: map<string, int>, now: int, tickets: seq<TicketInfo>)
    ensures var r := Run(chs, cfg, seen, last0, now, tickets);
      && r.last.Keys == last0.Keys + r.results.Keys
      && forall id :: id in r.last ==> r.last[id] == if id in r.results then now else last0[id]
    decreases |tickets|
  {
    if tickets != [] {
      RunStamps(chs, cfg, seen, last0, now, tickets[..|tickets| - 1]);
    }
  }

  // ---------------------------------------------------------------------
  // The manager
  // ---------------------------------------------------------------------

  class NotificationManager {
    var channels: seq<Channel>
    var lastNotified: map<string, int>
    var monitoredTrains: set<string>
    var config: NotificationConfig

    /** Keeps the four known settings of the configuration, with their defaults;
        the target list always starts out missing. */
    constructor (enabled: Option<bool>, cooldownSeconds: Option<int>,
                 onlyTargetTrains: Option<bool>, minTickets: Option<int>)
      ensures channels == [] && lastNotified == map[] && monitoredTrains == {}
      ensures config == NotificationConfig(enabled.GetOr(true),
                                           cooldownSeconds.GetOr(DEFAULT_COOLDOWN_SECONDS),
                                           onlyTargetTrains.GetOr(false),
                                           minTickets.GetOr(DEFAULT_MIN_TICKETS), None)
    {
      channels := [];
      lastNotified := map[];
      monitoredTrains := {};
      config := NotificationConfig(enabled.GetOr(true), cooldownSeconds.GetOr(DEFAULT_COOLDOWN_SECONDS),
                                   onlyTargetTrains.GetOr(false), minTickets.GetOr(DEFAULT_MIN_TICKETS), None);
    }

    /** `register_channel`: the channel is appended; nothing else changes. */
    method RegisterChannel(channel: Channel)
      modifies this`channels
      ensures channels == old(channels) + [channel]
    {
      channels := channels + [channel];
    }

    /** The monitor sets the trains to watch on the manager's configuration. */
    method SetTargetTrains(targets: Option<seq<string>>)
      modifies this`config
      ensures config == old(config).(targetTrains := targets)
    {
      config := config.(targetTrains := targets);
    }

    /** `_send_notification`: tries every usable channel in order, recording
        each outcome (a failure or a fault of one channel does not stop the
        others), then stamps the train with `now` whatever the outcomes were. */
    method SendNotification(ticket: TicketInfo, isNew: bool, now: int) returns (results: map<string, string>)
      modifies this`lastNotified
      ensures results == Dispatch(channels, Title(ticket.trainNo, isNew), FormatTicketMessage(ticket), ticket)
      ensures lastNotified == old(lastNotified)[ticket.trainNo := now]
    {
      var title := Title(ticket.trainNo, isNew);
      var message := FormatTicketMessage(ticket);
      results := map[];
      var i := 0;
      while i < |channels|
        invariant 0 <= i <= |channels|
        invariant results == Dispatch(channels[..i], title, message, ticket)
      {
        var channel := channels[i];
        assert channels[..i + 1][..i] == channels[..i];
        if channel.available {
          var outcome := channel.send(title, message, ticket);
          results := results[channel.name := OutcomeText(outcome)];
        }
        i := i + 1;
      }
      assert channels[..i] == channels;
      lastNotified := lastNotified[ticket.trainNo := now];
    }

    /** `notify_ticket_available`. When disabled it returns no results and
        changes nothing. Otherwise it gates and dispatches every ticket in
        order, a train being new when it was never seen before this call, and
        afterwards adds every train of the list to the seen set. */
    method NotifyTicketAvailable(tickets: seq<TicketInfo>, now: int)
      returns (results: map<string, map<string, string>>)
      modifies this`lastNotified, this`monitoredTrains
      ensures !config.enabled ==>
        results == map[] && lastNotified == old(lastNotified) && monitoredTrains == old(monitoredTrains)
      ensures config.enabled ==>
        RunState(results, lastNotified) == Run(channels, config, old(monitoredTrains), old(lastNotified), now, tickets)
      ensures config.enabled ==> monitoredTrains == old(monitoredTrains) + TrainNos(tickets)
      ensures old(monitoredTrains) <= monitoredTrains && old(MonitoredCount()) <= MonitoredCount()
    {
      if !config.enabled {
        return map[];
      }
      var currentTrains := TrainNos(tickets);
      var newTrains := currentTrains - monitoredTrains;
      results := map[];
      var i := 0;
      while i < |tickets|
        invariant 0 <= i <= |tickets|
        invariant monitoredTrains == old(monitoredTrains)
        invariant RunState(results, lastNotified) ==
          Run(channels, config, old(monitoredTrains), old(lastNotified), now, tickets[..i])
      {
        var ticket := tickets[i];
        assert tickets[..i + 1][..i] == tickets[..i];
        assert ticket.trainNo in currentTrains;
        var isNew := ticket.trainNo in newTrains;
        if ShouldNotify(config, lastNotified, ticket, isNew, now) {
          var sent := SendNotification(ticket, isNew, now);
          results := results[ticket.trainNo := sent];
        }
        i := i + 1;
      }
      assert tickets[..i] == tickets;
      MonitoredCountGrows(monitoredTrains, monitoredTrains + currentTrains);
      monitoredTrains := monitoredTrains + currentTrains;
    }

    /** `get_available_channels`. */
    function AvailableChannels(): (names: seq<string>)
      reads this
      ensures forall n :: n in names <==>
        exists i :: 0 <= i < |channels| && channels[i].available && channels[i].name == n
      ensures |names| == |UsableIndices(channels)|
      ensures forall k :: 0 <= k < |names| ==> names[k] == channels[UsableIndices(channels)[k]].name
    {
      AvailableNamesOrder(channels);
      AvailableNames(channels)
    }

    /** `get_monitored_count`. */
    function MonitoredCount(): nat
      reads this
    {
      |monitoredTrains|
    }
  }

  /** The number of monitored trains never goes down across a call. */
  lemma MonitoredCountGrows(before: set<string>, after: set<string>)
    requires before <= after
    ensures |before| <= |after|
  {
    assert after == before + (after - before);
  }
}
