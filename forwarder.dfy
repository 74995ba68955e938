/**
 * The forwarding engine: destination resolution, per-destination dispatch
 * with failure isolation and delivery counters, deletion-job scheduling, the
 * broadcast cycle over all descriptors, and the scheduler lifecycle
 * (start, stop, re-schedule, status, single test forward).
 */
module Forwarding {
  import opened Wrappers
  import opened PyText
  import opened Model
  import opened Scheduling

  /** The broadcast period in seconds, fixed; the configured global interval is not consulted. */
  const ForwardInterval := 60

  const StoppedText := "⏹️ Detenido"
  const ActiveText := "🔄 Activo"
  const ActivePrefix := "🔄 Activo - Próximo envío: "

  /** What one forward attempt gives: the new message's id, a Telegram error, or any other exception. */
  datatype ForwardResult =
    | Forwarded(newMessageId: MessageId)
    | TelegramError(reason: string)
    | UnexpectedError(reason: string)

  /**
   * The Telegram application, as far as the forwarder uses it:
   * forward(destination, source chat, source message, time of the attempt).
   */
  datatype Client = Client(forward: (ChatId, ChatId, MessageId, int) -> ForwardResult)

  // ---------------------------------------------------------------------
  // Destination resolution

  /** Neither the admin nor the source channel: `dest != admin_id and dest != source_channel`. */
  predicate Allowed(cfg: Config, x: ChatId) {
    Some(x) != cfg.adminId && Some(x) != cfg.sourceChannelId
  }

  /** The elements of `xs` that are Allowed, in their order. */
  function Keep(cfg: Config, xs: seq<ChatId>): seq<ChatId> {
    if xs == [] then []
    else Keep(cfg, xs[..|xs| - 1]) + (if Allowed(cfg, xs[|xs| - 1]) then [xs[|xs| - 1]] else [])
  }

  /** Keep retains exactly the allowed elements. */
  lemma {:induction false} KeepMembers(cfg: Config, xs: seq<ChatId>)
    ensures forall x :: x in Keep(cfg, xs) <==> x in xs && Allowed(cfg, x)
  {
    if xs != [] {
      var init := xs[..|xs| - 1];
      KeepMembers(cfg, init);
      assert xs == init + [xs[|xs| - 1]];
    }
  }

  /** Keep works piecewise, so it never reorders: filtering a concatenation concatenates the filtered parts. */
  lemma {:induction false} KeepAppend(cfg: Config, a: seq<ChatId>, b: seq<ChatId>)
    ensures Keep(cfg, a + b) == Keep(cfg, a) + Keep(cfg, b)
    decreases |b|
  {
    if b == [] {
      assert a + b == a;
    } else {
      var b' := b[..|b| - 1];
      assert (a + b)[..|a + b| - 1] == a + b';
      assert (a + b)[|a + b| - 1] == b[|b| - 1];
      KeepAppend(cfg, a, b');
    }
  }

  /** A list with nothing to exclude comes back unchanged. */
  lemma {:induction false} KeepAllAllowed(cfg: Config, xs: seq<ChatId>)
    requires forall i :: 0 <= i < |xs| ==> Allowed(cfg, xs[i])
    ensures Keep(cfg, xs) == xs
  {
    if xs != [] {
      KeepAllAllowed(cfg, xs[..|xs| - 1]);
    }
  }

  /**
   * The destinations of one descriptor: with dest_all (true when absent) the
   * configured destinations, otherwise the named list (none when the name is
   * missing, empty or unknown), with the admin and the source channel removed.
   */
  function Resolve(cfg: Config, d: Descriptor): seq<ChatId> {
    if d.destAll.GetOr(true) then Keep(cfg, Destinations(cfg))
    else match d.destList
      case None => []
      case Some(name) =>
        if name == "" then []
        else Keep(cfg, if name in NamedLists(cfg) then NamedLists(cfg)[name] else [])
  }

  /** Neither the admin nor the source channel is ever a resolved destination. */
  lemma ResolveExcludes(cfg: Config, d: Descriptor)
    ensures forall x :: x in Resolve(cfg, d) ==> Some(x) != cfg.adminId && Some(x) != cfg.sourceChannelId
  {
    KeepMembers(cfg, Destinations(cfg));
    if !d.destAll.GetOr(true) && d.destList.Some? && d.destList.value in NamedLists(cfg) {
      KeepMembers(cfg, NamedLists(cfg)[d.destList.value]);
    }
  }

  /** With dest_all, a chat is a destination iff it is configured and allowed. */
  lemma ResolveAll(cfg: Config, d: Descriptor)
    requires d.destAll.GetOr(true)
    ensures forall x :: x in Resolve(cfg, d) <==> x in Destinations(cfg) && Allowed(cfg, x)
  {
    KeepMembers(cfg, Destinations(cfg));
  }

  /** With a named list, a chat is a destination iff it is in that list and allowed. */
  lemma ResolveNamed(cfg: Config, d: Descriptor, name: string)
    requires !d.destAll.GetOr(true) && d.destList == Some(name) && name != ""
    ensures name !in NamedLists(cfg) ==> Resolve(cfg, d) == []
    ensures name in NamedLists(cfg) ==>
      forall x :: x in Resolve(cfg, d) <==> x in NamedLists(cfg)[name] && Allowed(cfg, x)
  {
    if name in NamedLists(cfg) {
      KeepMembers(cfg, NamedLists(cfg)[name]);
    }
  }

  /** The loop of forwarder.py:81-84: append each destination that is neither admin nor source. */
  method FilterDestinations(cfg: Config, all: seq<ChatId>) returns (ds: seq<ChatId>)
    ensures ds == Keep(cfg, all)
  {
    ds := [];
    var i := 0;
    while i < |all|
      invariant 0 <= i <= |all|
      invariant ds == Keep(cfg, all[..i])
    {
      assert all[..i + 1][..i] == all[..i];
      if Some(all[i]) != cfg.adminId && Some(all[i]) != cfg.sourceChannelId {
        ds := ds + [all[i]];
      }
      i := i + 1;
    }
    assert all[..|all|] == all;
  }

  /** Destination resolution as forward_all_messages does it for one descriptor. */
  method ResolveDestinations(cfg: Config, d: Descriptor) returns (ds: seq<ChatId>)
    ensures ds == Resolve(cfg, d)
  {
    if d.destAll.GetOr(true) {
      ds := FilterDestinations(cfg, Destinations(cfg));
    } else if d.destList.Some? && d.destList.value != "" {
      var lists := NamedLists(cfg);
      var named := if d.destList.value in lists then lists[d.destList.value] else [];
      ds := Keep(cfg, named);
    } else {
      ds := [];
    }
  }

  // ---------------------------------------------------------------------
  // Dispatch to the destinations of one descriptor

  /** The outcome of forwarding `d` to each destination, in order. */
  function Attempts(client: Client, d: Descriptor, dests: seq<ChatId>, now: int): (rs: seq<ForwardResult>)
    ensures |rs| == |dests|
  {
    if dests == [] then []
    else
      var n := |dests| - 1;
      Attempts(client, d, dests[..n], now) + [client.forward(dests[n], d.fromChatId, d.messageId, now)]
  }

  /** Attempt k is the forward to destination k. */
  lemma {:induction false} AttemptsAt(client: Client, d: Descriptor, dests: seq<ChatId>, now: int, k: nat)
    requires k < |dests|
    ensures Attempts(client, d, dests, now)[k] == client.forward(dests[k], d.fromChatId, d.messageId, now)
    decreases |dests|
  {
    var n := |dests| - 1;
    if k < n {
      AttemptsAt(client, d, dests[..n], now, k);
    }
  }

  /** One more destination adds its one attempt at the end. */
  lemma AttemptsStep(client: Client, d: Descriptor, dests: seq<ChatId>, i: nat, now: int)
    requires i < |dests|
    ensures Attempts(client, d, dests[..i + 1], now) ==
      Attempts(client, d, dests[..i], now) + [client.forward(dests[i], d.fromChatId, d.messageId, now)]
  {
    assert dests[..i + 1][..i] == dests[..i];
  }

  /** The number of successful forwards. */
  function Successes(rs: seq<ForwardResult>): (n: nat)
    ensures n <= |rs|
  {
    if rs == [] then 0
    else Successes(rs[..|rs| - 1]) + (if rs[|rs| - 1].Forwarded? then 1 else 0)
  }

  /** `delete_after is not None and delete_after > 0` */
  predicate DeleteEnabled(d: Descriptor) {
    d.deleteAfter.Some? && d.deleteAfter.value > 0
  }

  /** A deletion to schedule: this forwarded copy, at this time. */
  datatype Deletion = Deletion(chatId: ChatId, messageId: MessageId, runAt: int)

  /** The deletions one dispatch schedules, in order: one per successful forward when deletion is enabled. */
  function Deletions(d: Descriptor, dests: seq<ChatId>, rs: seq<ForwardResult>, now: int): seq<Deletion>
    requires |rs| == |dests|
  {
    if rs == [] then []
    else
      var n := |rs| - 1;
      Deletions(d, dests[..n], rs[..n], now) + DeletionAfter(d, dests[n], rs[n], now)
  }

  /** The deletion a single forward schedules: one when it succeeded and deletion is enabled. */
  function DeletionAfter(d: Descriptor, dest: ChatId, r: ForwardResult, now: int): seq<Deletion> {
    if DeleteEnabled(d) && r.Forwarded? then [Deletion(dest, r.newMessageId, now + 60 * d.deleteAfter.value)] else []
  }

  /** There is one deletion per successful forward when deletion is enabled, and none otherwise. */
  lemma {:induction false} DeletionsCount(d: Descriptor, dests: seq<ChatId>, rs: seq<ForwardResult>, now: int)
    requires |rs| == |dests|
    ensures |Deletions(d, dests, rs, now)| == if DeleteEnabled(d) then Successes(rs) else 0
  {
    if rs != [] {
      DeletionsCount(d, dests[..|rs| - 1], rs[..|rs| - 1], now);
    }
  }

  /**
   * A deletion of (chat c, message m) is scheduled iff deletion is enabled and
   * some forward to c succeeded with the new message m; it runs delete_after
   * minutes after the cycle's time.
   */
  lemma {:induction false} DeletionsExact(d: Descriptor, dests: seq<ChatId>, rs: seq<ForwardResult>, now: int, x: Deletion)
    requires |rs| == |dests|
    ensures x in Deletions(d, dests, rs, now) <==>
      DeleteEnabled(d) && x.runAt == now + 60 * d.deleteAfter.value &&
      exists i :: 0 <= i < |rs| && dests[i] == x.chatId && rs[i] == Forwarded(x.messageId)
  {
    if rs != [] {
      var n := |rs| - 1;
      DeletionsExact(d, dests[..n], rs[..n], now, x);
      if DeleteEnabled(d) && x.runAt == now + 60 * d.deleteAfter.value {
        if exists i :: 0 <= i < |rs| && dests[i] == x.chatId && rs[i] == Forwarded(x.messageId) {
          var i :| 0 <= i < |rs| && dests[i] == x.chatId && rs[i] == Forwarded(x.messageId);
          if i < n {
            assert dests[..n][i] == x.chatId && rs[..n][i] == Forwarded(x.messageId);
          }
        }
      }
    }
  }

  /** Extending a dispatch by one attempt extends its successes and deletions by that attempt's. */
  lemma DispatchSnoc(d: Descriptor, dests: seq<ChatId>, dest: ChatId, rs: seq<ForwardResult>, r: ForwardResult, now: int)
    requires |rs| == |dests|
    ensures Successes(rs + [r]) == Successes(rs) + if r.Forwarded? then 1 else 0
    ensures Deletions(d, dests + [dest], rs + [r], now) == Deletions(d, dests, rs, now) + DeletionAfter(d, dest, r, now)
  {
    assert (rs + [r])[..|rs|] == rs;
    assert (dests + [dest])[..|dests|] == dests;
  }

  /** What processing one descriptor produces. */
  datatype Outcome = Outcome(descriptor: Descriptor, successes: nat, failures: nat, deletions: seq<Deletion>)

  /**
   * One descriptor of the cycle: skipped when it has no destinations;
   * otherwise every destination is attempted, failures are counted and do not
   * stop the rest, and send_count (0 when absent) grows by the successes.
   */
  function Process(cfg: Config, client: Client, d: Descriptor, now: int): Outcome {
    var dests := Resolve(cfg, d);
    if dests == [] then Outcome(d, 0, 0, [])
    else
      var rs := Attempts(client, d, dests, now);
      var k := Successes(rs);
      Outcome(Counted(d, k), k, |dests| - k, Deletions(d, dests, rs, now))
  }

  /** `msg['send_count'] = msg.get('send_count', 0) + successes` */
  function Counted(d: Descriptor, successes: nat): Descriptor {
    d.(sendCount := Some(d.sendCount.GetOr(0) + successes))
  }

  /**
   * Processing a descriptor skips it when nothing resolves; otherwise each
   * destination is either a success or a failure, only send_count changes,
   * it never decreases, and one deletion is scheduled per success exactly
   * when deletion is enabled.
   */
  lemma ProcessOutcome(cfg: Config, client: Client, d: Descriptor, now: int)
    ensures var o := Process(cfg, client, d, now);
      (Resolve(cfg, d) == [] ==> o == Outcome(d, 0, 0, [])) &&
      o.successes + o.failures == |Resolve(cfg, d)| &&
      o.descriptor == d.(sendCount := o.descriptor.sendCount) &&
      o.descriptor.sendCount.GetOr(0) == d.sendCount.GetOr(0) + o.successes &&
      |o.deletions| == if DeleteEnabled(d) then o.successes else 0
  {
    var dests := Resolve(cfg, d);
    if dests != [] {
      DeletionsCount(d, dests, Attempts(client, d, dests, now), now);
    }
  }

  /** The descriptors after a cycle: each one processed on its own. */
  function CycleDescriptors(cfg: Config, client: Client, msgs: seq<Descriptor>, now: int): seq<Descriptor> {
    if msgs == [] then []
    else CycleDescriptors(cfg, client, msgs[..|msgs| - 1], now) + [Process(cfg, client, msgs[|msgs| - 1], now).descriptor]
  }

  /** All deletions of a cycle, descriptor by descriptor. */
  function CycleDeletions(cfg: Config, client: Client, msgs: seq<Descriptor>, now: int): seq<Deletion> {
    if msgs == [] then []
    else CycleDeletions(cfg, client, msgs[..|msgs| - 1], now) + Process(cfg, client, msgs[|msgs| - 1], now).deletions
  }

  /** Processing the first i + 1 descriptors is processing the first i, then the i-th. */
  lemma CycleStep(cfg: Config, client: Client, msgs: seq<Descriptor>, i: nat, now: int)
    requires i < |msgs|
    ensures CycleDescriptors(cfg, client, msgs[..i + 1], now) ==
      CycleDescriptors(cfg, client, msgs[..i], now) + [Process(cfg, client, msgs[i], now).descriptor]
    ensures CycleDeletions(cfg, client, msgs[..i + 1], now) ==
      CycleDeletions(cfg, client, msgs[..i], now) + Process(cfg, client, msgs[i], now).deletions
  {
    assert msgs[..i + 1][..i] == msgs[..i];
  }

  /** The cycle after i + 1 descriptors, from the cycle after i and the outcome of descriptor i. */
  lemma CycleNext(cfg: Config, client: Client, msgs: seq<Descriptor>, i: nat, now: int,
                  out: seq<Descriptor>, acc: seq<Deletion>, r: Descriptor, dels: seq<Deletion>,
                  jobs: map<JobId, Job>, stamp: nat, mid: map<JobId, Job>, after: map<JobId, Job>)
    requires i < |msgs|
    requires out == CycleDescriptors(cfg, client, msgs[..i], now) && acc == CycleDeletions(cfg, client, msgs[..i], now)
    requires r == Process(cfg, client, msgs[i], now).descriptor && dels == Process(cfg, client, msgs[i], now).deletions
    requires mid == Schedule(jobs, stamp, acc) && after == Schedule(mid, stamp + |acc|, dels)
    ensures out + [r] == CycleDescriptors(cfg, client, msgs[..i + 1], now)
    ensures acc + dels == CycleDeletions(cfg, client, msgs[..i + 1], now)
    ensures after == Schedule(jobs, stamp, acc + dels)
  {
    CycleStep(cfg, client, msgs, i, now);
    ScheduleAppend(jobs, stamp, acc, dels);
  }

  /**
   * A cycle keeps the list's length, order and identities, saves at each
   * position exactly what processing that descriptor gives, changes nothing
   * but send_count, and never lowers a send_count.
   */
  lemma {:induction false} CyclePreservesDescriptors(cfg: Config, client: Client, msgs: seq<Descriptor>, now: int)
    ensures |CycleDescriptors(cfg, client, msgs, now)| == |msgs|
    ensures forall j :: 0 <= j < |msgs| ==>
      CycleDescriptors(cfg, client, msgs, now)[j] == Process(cfg, client, msgs[j], now).descriptor
    ensures forall j :: 0 <= j < |msgs| ==>
      var r := CycleDescriptors(cfg, client, msgs, now)[j];
      r == msgs[j].(sendCount := r.sendCount) && r.sendCount.GetOr(0) >= msgs[j].sendCount.GetOr(0)
  {
    CycleAt(cfg, client, msgs, now);
    forall j | 0 <= j < |msgs|
      ensures var r := Process(cfg, client, msgs[j], now).descriptor;
        r == msgs[j].(sendCount := r.sendCount) && r.sendCount.GetOr(0) >= msgs[j].sendCount.GetOr(0)
    {
      ProcessOutcome(cfg, client, msgs[j], now);
    }
  }

  /** Position j of the saved list is what processing descriptor j gives. */
  lemma {:induction false} CycleAt(cfg: Config, client: Client, msgs: seq<Descriptor>, now: int)
    ensures |CycleDescriptors(cfg, client, msgs, now)| == |msgs|
    ensures forall j :: 0 <= j < |msgs| ==>
      CycleDescriptors(cfg, client, msgs, now)[j] == Process(cfg, client, msgs[j], now).descriptor
  {
    if msgs != [] {
      var n := |msgs| - 1;
      var prefix := CycleDescriptors(cfg, client, msgs[..n], now);
      CycleAt(cfg, client, msgs[..n], now);
      assert CycleDescriptors(cfg, client, msgs, now) == prefix + [Process(cfg, client, msgs[n], now).descriptor];
      forall j | 0 <= j < |msgs|
        ensures CycleDescriptors(cfg, client, msgs, now)[j] == Process(cfg, client, msgs[j], now).descriptor
      {
        if j < n {
          assert msgs[..n][j] == msgs[j];
        }
      }
    }
  }

  // ---------------------------------------------------------------------
  // Deletion jobs

  function DeletionKey(x: Deletion, stamp: nat): JobId {
    DeleteKey(x.chatId, x.messageId, stamp)
  }

  function DeletionJob(x: Deletion): Job {
    Job(DeleteForwarded(x.chatId, x.messageId), At(x.runAt), x.runAt)
  }

  /** The job table after adding the deletion jobs `dels`, the k-th stamped `stamp + k`. */
  function Schedule(jobs: map<JobId, Job>, stamp: nat, dels: seq<Deletion>): map<JobId, Job> {
    if dels == [] then jobs
    else
      var n := |dels| - 1;
      Schedule(jobs, stamp, dels[..n])[DeletionKey(dels[n], stamp + n) := DeletionJob(dels[n])]
  }

  /** Every deletion job's stamp is below `stamp`. */
  ghost predicate StampsBelow(jobs: map<JobId, Job>, stamp: nat) {
    forall id :: id in jobs && id.DeleteKey? ==> id.stamp < stamp
  }

  /** Scheduling in two batches is scheduling their concatenation. */
  lemma {:induction false} ScheduleAppend(jobs: map<JobId, Job>, stamp: nat, a: seq<Deletion>, b: seq<Deletion>)
    ensures Schedule(jobs, stamp, a + b) == Schedule(Schedule(jobs, stamp, a), stamp + |a|, b)
    decreases |b|
  {
    if b == [] {
      assert a + b == a;
    } else {
      var n := |b| - 1;
      assert (a + b)[..|a| + n] == a + b[..n];
      assert (a + b)[|a| + n] == b[n];
      ScheduleAppend(jobs, stamp, a, b[..n]);
    }
  }

  /** DispatchSnoc for the first i + 1 destinations of a list. */
  lemma DispatchStep(d: Descriptor, dests: seq<ChatId>, i: nat, rs: seq<ForwardResult>, r: ForwardResult, now: int)
    requires i < |dests| && |rs| == i
    ensures Successes(rs + [r]) == Successes(rs) + if r.Forwarded? then 1 else 0
    ensures Deletions(d, dests[..i + 1], rs + [r], now) == Deletions(d, dests[..i], rs, now) + DeletionAfter(d, dests[i], r, now)
  {
    assert dests[..i + 1] == dests[..i] + [dests[i]];
    DispatchSnoc(d, dests[..i], dests[i], rs, r, now);
  }

  /** Scheduling one more deletion adds its job under the next stamp. */
  lemma ScheduleSnoc(jobs: map<JobId, Job>, stamp: nat, dels: seq<Deletion>, x: Deletion)
    ensures Schedule(jobs, stamp, dels + [x]) ==
      Schedule(jobs, stamp, dels)[DeletionKey(x, stamp + |dels|) := DeletionJob(x)]
  {
    assert (dels + [x])[..|dels|] == dels;
  }

  /** Scheduling deletions with fresh stamps keeps the table well keyed, keeps its keys, and advances the stamp. */
  lemma {:induction false} ScheduleKeepsTable(jobs: map<JobId, Job>, stamp: nat, dels: seq<Deletion>)
    requires WellKeyed(jobs) && StampsBelow(jobs, stamp)
    ensures WellKeyed(Schedule(jobs, stamp, dels))
    ensures StampsBelow(Schedule(jobs, stamp, dels), stamp + |dels|)
    ensures jobs.Keys <= Schedule(jobs, stamp, dels).Keys
  {
    if dels != [] {
      ScheduleKeepsTable(jobs, stamp, dels[..|dels| - 1]);
    }
  }


  /**
   * With fresh stamps, scheduling adds exactly one job per deletion, under
   * its own key, and leaves every existing job as it was.
   */
  lemma {:induction false} ScheduleAdds(jobs: map<JobId, Job>, stamp: nat, dels: seq<Deletion>)
    requires StampsBelow(jobs, stamp)
    ensures forall id :: id in jobs ==> id in Schedule(jobs, stamp, dels) && Schedule(jobs, stamp, dels)[id] == jobs[id]
    ensures forall k :: 0 <= k < |dels| ==>
      DeletionKey(dels[k], stamp + k) in Schedule(jobs, stamp, dels) &&
      Schedule(jobs, stamp, dels)[DeletionKey(dels[k], stamp + k)] == DeletionJob(dels[k])
    ensures forall id :: id in Schedule(jobs, stamp, dels) ==>
      id in jobs || exists k :: 0 <= k < |dels| && id == DeletionKey(dels[k], stamp + k)
  {
    if dels != [] {
      var n := |dels| - 1;
      ScheduleAdds(jobs, stamp, dels[..n]);
      forall k | 0 <= k < n ensures dels[..n][k] == dels[k] { }
    }
  }

  // ---------------------------------------------------------------------
  // Status text

  function TwoDigits(n: nat): (r: string)
    requires n < 100
    ensures |r| == 2 && IsDigit(r[0]) && IsDigit(r[1])
    ensures 10 * DigitValue(r[0]) + DigitValue(r[1]) == n
  {
    [DigitChar(n / 10), DigitChar(n % 10)]
  }

  /** strftime('%H:%M:%S') of a time given in seconds. */
  function ClockText(t: int): (r: string)
    ensures |r| == 8 && r[2] == ':' && r[5] == ':'
    ensures forall i :: 0 <= i < 8 && i != 2 && i != 5 ==> IsDigit(r[i])
    ensures var h := 10 * DigitValue(r[0]) + DigitValue(r[1]);
            var m := 10 * DigitValue(r[3]) + DigitValue(r[4]);
            var s := 10 * DigitValue(r[6]) + DigitValue(r[7]);
            h < 24 && m < 60 && s < 60 && 3600 * h + 60 * m + s == t % 86400
  {
    var day := t % 86400;
    ClockParts(day);
    var hh, mm, ss := TwoDigits(day / 3600), TwoDigits(day % 3600 / 60), TwoDigits(day % 60);
    var r := hh + ":" + mm + ":" + ss;
    assert r[0] == hh[0] && r[1] == hh[1] && r[3] == mm[0] && r[4] == mm[1] && r[6] == ss[0] && r[7] == ss[1];
    r
  }

  /** Hours, minutes and seconds of a second of the day. */
  lemma ClockParts(day: int)
    requires 0 <= day < 86400
    ensures day / 3600 < 24 && day % 3600 / 60 < 60 && day % 60 < 60
    ensures 3600 * (day / 3600) + 60 * (day % 3600 / 60) + day % 60 == day
  {
    var rest := day % 3600;
    assert day == 3600 * (day / 3600) + rest;
    assert rest == 60 * (rest / 60) + rest % 60;
    assert rest % 60 == day % 60;
  }

  // ---------------------------------------------------------------------
  // The forwarder

  /** The broadcast job as schedule_forwarding_job adds it at time `now`. */
  function CycleJob(now: int): Job {
    Job(ForwardCycle, Every(ForwardInterval), now + ForwardInterval)
  }

  class Forwarder {
    var config: Config
    var isRunning: bool
    var application: Option<Client>
    /** Stands for the timestamp that makes each deletion job id unique. */
    var deletionStamp: nat
    const scheduler: Scheduler

    /** The job table is well keyed with fresh stamps, and is_running mirrors the scheduler. */
    ghost predicate TableValid()
      reads this, scheduler
    {
      scheduler.running == isRunning &&
      WellKeyed(scheduler.jobs) &&
      StampsBelow(scheduler.jobs, deletionStamp)
    }

    /** ... and while running, the broadcast job is scheduled. */
    ghost predicate Valid()
      reads this, scheduler
    {
      TableValid() && (isRunning ==> ForwardMessages in scheduler.jobs)
    }

    constructor (config: Config)
      ensures Valid() && fresh(scheduler)
      ensures this.config == config && !isRunning && application == None
      ensures scheduler.jobs == map[] && scheduler.starts == 0
    {
      this.config := config;
      isRunning := false;
      application := None;
      deletionStamp := 0;
      scheduler := new Scheduler();
    }

    /** Remove any 'forward_messages' job, then add it again with the fixed 60-second interval. */
    method ScheduleForwardingJob(now: int)
      requires TableValid()
      modifies scheduler`jobs
      ensures Valid()
      ensures scheduler.jobs == old(scheduler.jobs)[ForwardMessages := CycleJob(now)]
    {
      var _ := scheduler.RemoveJob(ForwardMessages);
      scheduler.AddJob(ForwardMessages, CycleJob(now));
      assert scheduler.jobs == old(scheduler.jobs)[ForwardMessages := CycleJob(now)];
    }

    /** Keep the application, start the scheduler unless already running, and (re)schedule the broadcast job. */
    method StartForwarding(app: Client, now: int)
      requires Valid()
      modifies this, scheduler
      ensures Valid()
      ensures application == Some(app) && isRunning
      ensures scheduler.starts == old(scheduler.starts) + (if old(isRunning) then 0 else 1)
      ensures scheduler.jobs == old(scheduler.jobs)[ForwardMessages := CycleJob(now)]
      ensures config == old(config) && deletionStamp == old(deletionStamp)
    {
      application := Some(app);
      if !isRunning {
        scheduler.Start();
        isRunning := true;
      }
      ScheduleForwardingJob(now);
    }

    /** Shut the scheduler down if running; the job table is kept. */
    method StopForwarding()
      requires Valid()
      modifies this, scheduler
      ensures Valid()
      ensures !isRunning && !scheduler.running
      ensures scheduler.jobs == old(scheduler.jobs) && scheduler.starts == old(scheduler.starts)
      ensures application == old(application) && config == old(config) && deletionStamp == old(deletionStamp)
    {
      if isRunning {
        scheduler.Shutdown();
        isRunning := false;
      }
    }

    /** Re-schedule the broadcast job while running; the requested interval is ignored. */
    method UpdateInterval(newInterval: int, now: int)
      requires Valid()
      modifies scheduler`jobs
      ensures Valid()
      ensures old(isRunning) ==> scheduler.jobs == old(scheduler.jobs)[ForwardMessages := CycleJob(now)]
      ensures !old(isRunning) ==> scheduler.jobs == old(scheduler.jobs)
    {
      if isRunning {
        ScheduleForwardingJob(now);
      }
    }

    /** The status text: stopped, or active with the earliest next-run time of the job table. */
    method GetStatus() returns (s: string)
      requires Valid()
      ensures !isRunning ==> s == StoppedText
      ensures isRunning ==> exists t :: IsEarliest(scheduler.jobs, t) && s == ActivePrefix + ClockText(t)
    {
      if !isRunning {
        return StoppedText;
      }
      var next := scheduler.EarliestRun();
      if next.Some? {
        s := ActivePrefix + ClockText(next.value);
      } else {
        s := ActiveText;
      }
    }

    /** One forward outside the cycle: no counters, no jobs, only a verdict and a reason. */
    method TestForwardSingleMessage(d: Descriptor, dest: ChatId, now: int) returns (ok: bool, text: string)
      ensures application.None? ==> !ok && text == "Aplicación no disponible"
      ensures application.Some? ==>
        match application.value.forward(dest, d.fromChatId, d.messageId, now)
        case Forwarded(_) => ok && text == "Enviado correctamente"
        case TelegramError(e) => !ok && text == e
        case UnexpectedError(e) => !ok && text == "Error inesperado: " + e
    {
      if application.None? {
        return false, "Aplicación no disponible";
      }
      var result := application.value.forward(dest, d.fromChatId, d.messageId, now);
      match result {
        case Forwarded(_) => ok, text := true, "Enviado correctamente";
        case TelegramError(e) => ok, text := false, e;
        case UnexpectedError(e) => ok, text := false, "Error inesperado: " + e;
      }
    }

    /** Add a one-shot job that deletes (chatId, messageId) `minutes` minutes after `now`. */
    method ScheduleMessageDeletion(chatId: ChatId, messageId: MessageId, minutes: int, now: int)
      modifies this`deletionStamp, scheduler`jobs
      ensures deletionStamp == old(deletionStamp) + 1
      ensures scheduler.jobs == old(scheduler.jobs)[DeleteKey(chatId, messageId, old(deletionStamp)) :=
                                  DeletionJob(Deletion(chatId, messageId, now + 60 * minutes))]
    {
      var x := Deletion(chatId, messageId, now + 60 * minutes);
      scheduler.AddJobReplacing(DeletionKey(x, deletionStamp), DeletionJob(x));
      deletionStamp := deletionStamp + 1;
    }

    /** One forward attempt of the cycle, scheduling the copy's deletion when it succeeded. */
    method ForwardOne(client: Client, d: Descriptor, dest: ChatId, now: int) returns (result: ForwardResult)
      modifies this`deletionStamp, scheduler`jobs
      ensures result == client.forward(dest, d.fromChatId, d.messageId, now)
      ensures deletionStamp == old(deletionStamp) + |DeletionAfter(d, dest, result, now)|
      ensures scheduler.jobs == Schedule(old(scheduler.jobs), old(deletionStamp), DeletionAfter(d, dest, result, now))
    {
      result := client.forward(dest, d.fromChatId, d.messageId, now);
      if result.Forwarded? && d.deleteAfter.Some? && d.deleteAfter.value > 0 {
        ScheduleMessageDeletion(dest, result.newMessageId, d.deleteAfter.value, now);
        assert [Deletion(dest, result.newMessageId, now + 60 * d.deleteAfter.value)][..0] == [];
      }
    }

    /** The i-th attempt of a dispatch, stated as the step from the first i attempts to the first i + 1. */
    method DispatchTo(client: Client, d: Descriptor, dests: seq<ChatId>, i: nat, now: int,
                      ghost done: seq<ForwardResult>, ghost jobs: map<JobId, Job>, ghost stamp: nat)
      returns (result: ForwardResult)
      requires i < |dests| && |done| == i
      requires deletionStamp == stamp + |Deletions(d, dests[..i], done, now)|
      requires scheduler.jobs == Schedule(jobs, stamp, Deletions(d, dests[..i], done, now))
      modifies this`deletionStamp, scheduler`jobs
      ensures result == client.forward(dests[i], d.fromChatId, d.messageId, now)
      ensures Successes(done + [result]) == Successes(done) + if result.Forwarded? then 1 else 0
      ensures deletionStamp == stamp + |Deletions(d, dests[..i + 1], done + [result], now)|
      ensures scheduler.jobs == Schedule(jobs, stamp, Deletions(d, dests[..i + 1], done + [result], now))
    {
      result := ForwardOne(client, d, dests[i], now);
      DispatchStep(d, dests, i, done, result, now);
      ScheduleAppend(jobs, stamp, Deletions(d, dests[..i], done, now), DeletionAfter(d, dests[i], result, now));
    }

    /** The inner loop of the cycle: forward to each destination in turn; a failure only counts as one. */
    method ForwardToDestinations(client: Client, d: Descriptor, dests: seq<ChatId>, now: int)
      returns (ok: nat, failed: nat)
      modifies this`deletionStamp, scheduler`jobs
      ensures ok == Successes(Attempts(client, d, dests, now)) && ok + failed == |dests|
      ensures deletionStamp == old(deletionStamp) + |Deletions(d, dests, Attempts(client, d, dests, now), now)|
      ensures scheduler.jobs ==
        Schedule(old(scheduler.jobs), old(deletionStamp), Deletions(d, dests, Attempts(client, d, dests, now), now))
    {
      ghost var done: seq<ForwardResult> := [];
      ok, failed := 0, 0;
      var i := 0;
      while i < |dests|
        invariant 0 <= i <= |dests| && |done| == i
        invariant done == Attempts(client, d, dests[..i], now)
        invariant ok == Successes(done) && ok + failed == i
        invariant deletionStamp == old(deletionStamp) + |Deletions(d, dests[..i], done, now)|
        invariant scheduler.jobs == Schedule(old(scheduler.jobs), old(deletionStamp), Deletions(d, dests[..i], done, now))
      {
        var result := DispatchTo(client, d, dests, i, now, done, old(scheduler.jobs), old(deletionStamp));
        AttemptsStep(client, d, dests, i, now);
        done := done + [result];
        if result.Forwarded? {
          ok := ok + 1;
        } else {
          failed := failed + 1;
        }
        i := i + 1;
      }
      assert dests[..|dests|] == dests;
    }

    /** One descriptor of the cycle: resolve, dispatch, and count the successes into send_count. */
    method ProcessDescriptor(client: Client, d: Descriptor, now: int) returns (r: Descriptor, ghost dels: seq<Deletion>)
      modifies this`deletionStamp, scheduler`jobs
      ensures r == Process(config, client, d, now).descriptor
      ensures dels == Process(config, client, d, now).deletions
      ensures deletionStamp == old(deletionStamp) + |dels|
      ensures scheduler.jobs == Schedule(old(scheduler.jobs), old(deletionStamp), dels)
    {
      var dests := ResolveDestinations(config, d);
      if dests == [] {
        return d, [];
      }
      var ok, failed := ForwardToDestinations(client, d, dests, now);
      r := Counted(d, ok);
      dels := Deletions(d, dests, Attempts(client, d, dests, now), now);
    }

    /** The loop of the cycle: every descriptor processed on its own, in order. */
    method ProcessAll(client: Client, msgs: seq<Descriptor>, now: int) returns (out: seq<Descriptor>)
      modifies this`deletionStamp, scheduler`jobs
      ensures out == CycleDescriptors(config, client, msgs, now)
      ensures deletionStamp == old(deletionStamp) + |CycleDeletions(config, client, msgs, now)|
      ensures scheduler.jobs == Schedule(old(scheduler.jobs), old(deletionStamp), CycleDeletions(config, client, msgs, now))
    {
      out := [];
      ghost var acc: seq<Deletion> := [];
      var i := 0;
      while i < |msgs|
        invariant 0 <= i <= |msgs|
        invariant out == CycleDescriptors(config, client, msgs[..i], now)
        invariant acc == CycleDeletions(config, client, msgs[..i], now)
        invariant deletionStamp == old(deletionStamp) + |acc|
        invariant scheduler.jobs == Schedule(old(scheduler.jobs), old(deletionStamp), acc)
      {
        out, acc := ProcessNext(client, msgs, i, now, out, acc, old(scheduler.jobs), old(deletionStamp));
        i := i + 1;
      }
      assert msgs[..|msgs|] == msgs;
    }

    /** One pass of the cycle loop: the first i descriptors processed become the first i + 1. */
    method ProcessNext(client: Client, msgs: seq<Descriptor>, i: nat, now: int, out: seq<Descriptor>,
                       ghost acc: seq<Deletion>, ghost jobs: map<JobId, Job>, ghost stamp: nat)
      returns (next: seq<Descriptor>, ghost nextAcc: seq<Deletion>)
      requires i < |msgs|
      requires out == CycleDescriptors(config, client, msgs[..i], now)
      requires acc == CycleDeletions(config, client, msgs[..i], now)
      requires deletionStamp == stamp + |acc|
      requires scheduler.jobs == Schedule(jobs, stamp, acc)
      modifies this`deletionStamp, scheduler`jobs
      ensures next == CycleDescriptors(config, client, msgs[..i + 1], now)
      ensures nextAcc == CycleDeletions(config, client, msgs[..i + 1], now)
      ensures deletionStamp == stamp + |nextAcc|
      ensures scheduler.jobs == Schedule(jobs, stamp, nextAcc)
    {
      ghost var mid := scheduler.jobs;
      var r, dels := ProcessDescriptor(client, msgs[i], now);
      CycleNext(config, client, msgs, i, now, out, acc, r, dels, jobs, stamp, mid, scheduler.jobs);
      next := out + [r];
      nextAcc := acc + dels;
    }

    /**
     * The broadcast cycle. Without an application nothing happens. Otherwise
     * the configuration and the descriptors are reloaded; an empty list ends
     * the cycle without saving; else every descriptor is processed on its own
     * and the list is saved exactly once.
     */
    method ForwardAllMessages(store: Store, now: int)
      requires Valid()
      modifies this, scheduler, store
      ensures Valid()
      ensures isRunning == old(isRunning) && application == old(application)
      ensures store.config == old(store.config) && store.configSaves == old(store.configSaves)
      ensures old(application).None? ==>
        config == old(config) && deletionStamp == old(deletionStamp) &&
        scheduler.jobs == old(scheduler.jobs) && unchanged(store)
      ensures old(application).Some? ==> config == old(store.config)
      ensures old(application).Some? && old(store.messages) == [] ==>
        unchanged(store) && scheduler.jobs == old(scheduler.jobs) && deletionStamp == old(deletionStamp)
      ensures old(application).Some? && old(store.messages) != [] ==>
        store.messages == CycleDescriptors(old(store.config), old(application).value, old(store.messages), now) &&
        store.messageSaves == old(store.messageSaves) + 1 &&
        scheduler.jobs == Schedule(old(scheduler.jobs), old(deletionStamp),
                                   CycleDeletions(old(store.config), old(application).value, old(store.messages), now))
    {
      if application.None? {
        return;
      }
      var client := application.value;
      config := store.config;
      var messages := store.messages;
      if messages == [] {
        return;
      }
      ghost var jobs, stamp := scheduler.jobs, deletionStamp;
      var updated := ProcessAll(client, messages, now);
      ScheduleKeepsTable(jobs, stamp, CycleDeletions(config, client, messages, now));
      store.SaveMessages(updated);
    }
  }

  /** While the forwarder is valid, its scheduler holds at most one broadcast job, the 'forward_messages' one. */
  lemma SingleBroadcastJob(f: Forwarder)
    requires f.Valid()
    ensures |CycleJobs(f.scheduler.jobs)| <= 1
    ensures f.isRunning ==> CycleJobs(f.scheduler.jobs) == {ForwardMessages}
  {
    AtMostOneCycleJob(f.scheduler.jobs);
  }
}
