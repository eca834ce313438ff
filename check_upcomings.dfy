/** The contest-reminder scan of src/functions/periodic/check_upcomings.rs: pick the upcoming
    contests of the enabled kinds whose reminder time (five minutes before the start) lies
    between now and the next UTC midnight, and build the reminder each one gets. */
module CheckUpcomings {

  import opened Wrappers
  import opened Seqs
  import opened Text
  import opened AtCoderTypes
  import opened Embeds
  import opened Clock
  import ApiDifficulty
  import Wait
  import opened CommandModel

  /** `NOTIFICATION_BEFORE`. */
  const NotificationBefore: int := 5 * Minute

  /** `(Utc::now() + 1 day).with_time(00:00:00)`: the next UTC midnight. */
  function NextRun(now: int): (r: int)
    ensures now < r <= now + Day
    ensures SecondOfDay(r, 0) == 0 && DayNumber(r, 0) == DayNumber(now, 0) + 1
  {
    ShiftDays(now, 0, 1);
    Decompose(now, 0);
    var r := WithTime(now + Day, 0, 0);
    Decompose(r, 0);
    r
  }

  /** The reminder is due at this instant. */
  function ReminderAt(c: ContestItem): int {
    c.startTime - NotificationBefore
  }

  /** `contest_notification.iter().map(...).any(|f| f(&contest.name))`. */
  predicate KindMatches(kinds: set<ContestKind>, name: string) {
    exists k :: k in kinds && Contains(name, Phrase(k))
  }

  function KindFilter(kinds: set<ContestKind>): ContestItem -> bool {
    (c: ContestItem) => KindMatches(kinds, c.name)
  }

  /** `now <= start_time - NOTIFICATION_BEFORE && start_time - NOTIFICATION_BEFORE < next_run`. */
  function WindowFilter(now: int, nextRun: int): ContestItem -> bool {
    (c: ContestItem) => now <= ReminderAt(c) < nextRun
  }

  /** The contests a scan at `now` spawns reminders for. */
  function Select(contests: seq<ContestItem>, kinds: set<ContestKind>, now: int): (r: seq<ContestItem>)
    ensures forall c :: c in r <==>
      c in contests && (exists k :: k in kinds && Contains(c.name, Phrase(k))) && now <= ReminderAt(c) < NextRun(now)
  {
    Filter(Filter(contests, KindFilter(kinds)), WindowFilter(now, NextRun(now)))
  }

  /** The selection is an order-preserving subsequence of the fetched list, multiplicities
      included. */
  lemma SelectInOrder(a: seq<ContestItem>, b: seq<ContestItem>, kinds: set<ContestKind>, now: int, x: ContestItem)
    ensures Select(a + b, kinds, now) == Select(a, kinds, now) + Select(b, kinds, now)
    ensures multiset(Select(a, kinds, now))[x] ==
      if KindMatches(kinds, x.name) && now <= ReminderAt(x) < NextRun(now) then multiset(a)[x] else 0
  {
    FilterAppend(a, b, KindFilter(kinds));
    FilterAppend(Filter(a, KindFilter(kinds)), Filter(b, KindFilter(kinds)), WindowFilter(now, NextRun(now)));
    FilterMultiplicity(a, KindFilter(kinds), x);
    FilterMultiplicity(Filter(a, KindFilter(kinds)), WindowFilter(now, NextRun(now)), x);
  }

  /** With no kind enabled nothing is selected. */
  lemma NoKindsNoContests(contests: seq<ContestItem>, now: int)
    ensures Select(contests, {}, now) == []
  {
    FilterNone(contests, KindFilter({}));
  }

  /** One enabled kind selects by its phrase alone. */
  lemma SingleKind(k: ContestKind, name: string)
    ensures KindMatches({k}, name) <==> Contains(name, Phrase(k))
  {
    if Contains(name, Phrase(k)) {
      assert k in {k};
    }
    if KindMatches({k}, name) {
      var j :| j in {k} && Contains(name, Phrase(j));
      assert j == k;
    }
  }

  /** A scan selects by now, the next midnight and the contest alone: every scan of the same
      UTC day before the reminder is due selects the contest again. */
  lemma ReselectedAllDay(contests: seq<ContestItem>, kinds: set<ContestKind>, now1: int, now2: int, c: ContestItem)
    requires DayNumber(now1, 0) == DayNumber(now2, 0)
    requires now1 <= ReminderAt(c) && now2 <= ReminderAt(c)
    ensures c in Select(contests, kinds, now1) <==> c in Select(contests, kinds, now2)
  {
    SameDayNextRun(now1, now2);
  }

  lemma SameDayNextRun(a: int, b: int)
    requires DayNumber(a, 0) == DayNumber(b, 0)
    ensures NextRun(a) == NextRun(b)
  {
    SameTimeOfDay(NextRun(a), NextRun(b), 0);
  }

  /** As written: two scans ten minutes apart both select a contest that starts at noon, so
      it gets two reminders. */
  lemma DuplicateReminder()
    ensures var c := ContestItem(12 * Hour, "AtCoder Beginner Contest 400", 100, "- 1999", "https://atcoder.jp/contests/abc400");
      c in Select([c], {Abc}, 0) && c in Select([c], {Abc}, 10 * Minute)
  {
    var c := ContestItem(12 * Hour, "AtCoder Beginner Contest 400", 100, "- 1999", "https://atcoder.jp/contests/abc400");
    ContainsAt(c.name, Phrase(Abc), 0);
    assert Abc in {Abc};
    assert KindMatches({Abc}, c.name);
    assert NextRun(0) == Day by {
      Decompose(NextRun(0), 0);
    }
    SameDayNextRun(0, 10 * Minute);
  }

  /** The ten-minute boundary a scan belongs to: the scan wakes on it (`Wait.ScanTarget`) and
      reads the clock after the fetch, before the next boundary. The slot ends where the
      next scan's wait ends. */
  function ScanBoundary(now: int): (b: int)
    ensures b % Wait.ScanPeriod == 0 && b <= now < b + Wait.ScanPeriod
    ensures b + Wait.ScanPeriod == Wait.NextBoundary(now + 1)
  {
    var b := now - now % Wait.ScanPeriod;
    assert b == now / 600 * 600;
    Wait.MultipleOfPeriod(now / 600 + 1);
    Wait.OneBoundary(now + 1, b + 600);
    b
  }

  /** The selection with the window cut to the scan's own ten-minute slot instead of running
      to the next midnight. */
  function CorrectedSelect(contests: seq<ContestItem>, kinds: set<ContestKind>, now: int): (r: seq<ContestItem>)
    ensures forall c :: c in r <==>
      c in contests && KindMatches(kinds, c.name) && ScanBoundary(now) <= ReminderAt(c) < ScanBoundary(now) + Wait.ScanPeriod
  {
    var b := ScanBoundary(now);
    Filter(Filter(contests, KindFilter(kinds)), WindowFilter(b, b + Wait.ScanPeriod))
  }

  /** Two boundaries whose slots hold the same instant are the same boundary. */
  lemma OneSlot(b1: int, b2: int, t: int)
    requires b1 % 600 == 0 && b1 <= t < b1 + 600
    requires b2 % 600 == 0 && b2 <= t < b2 + 600
    ensures b1 == b2
  {
    assert b1 == b1 / 600 * 600 && b2 == b2 / 600 * 600;
  }

  /** Corrected: a scan that woke on `boundary` and read the clock at any `now` before the
      next boundary selects a contest of an enabled kind exactly when its reminder time lies
      in that slot. One scan runs per boundary, so exactly one scan selects it, however long
      the fetch before the clock read took. */
  lemma CorrectedSelectsOnce(contests: seq<ContestItem>, kinds: set<ContestKind>, c: ContestItem, boundary: int, now: int)
    requires c in contests && KindMatches(kinds, c.name)
    requires boundary % Wait.ScanPeriod == 0 && boundary <= now < boundary + Wait.ScanPeriod
    ensures c in CorrectedSelect(contests, kinds, now) <==> boundary == ScanBoundary(ReminderAt(c))
  {
    OneSlot(boundary, ScanBoundary(now), now);
    if c in CorrectedSelect(contests, kinds, now) {
      OneSlot(boundary, ScanBoundary(ReminderAt(c)), ReminderAt(c));
    }
  }

  /** Corrected sleep of a spawned task: zero instead of a panic when the reminder time passed
      between the boundary and the clock read. */
  function CorrectedSleep(c: ContestItem, now: int): (s: nat)
    ensures now + s == if ReminderAt(c) < now then now else ReminderAt(c)
    ensures ToStd(ReminderAt(c) - now).Some? ==> s == ToStd(ReminderAt(c) - now).value
  {
    if ReminderAt(c) < now then 0 else ReminderAt(c) - now
  }

  /** Within the corrected window a task never sleeps past the next boundary. */
  lemma CorrectedSleepWithinSlot(contests: seq<ContestItem>, kinds: set<ContestKind>, c: ContestItem, now: int)
    requires c in CorrectedSelect(contests, kinds, now)
    ensures CorrectedSleep(c, now) < Wait.ScanPeriod
  {
  }

  /** Why the corrected sleep saturates: a reminder due on the boundary itself is selected by
      a scan that reads the clock one second later, where `to_std` fails. */
  lemma LateClockReadPastReminder()
    ensures var c := ContestItem(1500, "AtCoder Beginner Contest 400", 100, "- 1999", "https://atcoder.jp/contests/abc400");
      && ReminderAt(c) == 1200
      && c in CorrectedSelect([c], {Abc}, 1201)
      && ToStd(ReminderAt(c) - 1201).None?
      && CorrectedSleep(c, 1201) == 0
  {
    var c := ContestItem(1500, "AtCoder Beginner Contest 400", 100, "- 1999", "https://atcoder.jp/contests/abc400");
    ContainsAt(c.name, Phrase(Abc), 0);
    assert Abc in {Abc};
    assert KindMatches({Abc}, c.name);
    assert ScanBoundary(1201) == 1200;
  }

  // ---------------------------------------------------------------- the reminder

  /** serenity's `Color::DARK_GREEN`. */
  const DarkGreen: int := 0x1F8B4C

  /** The accent of a reminder is none of the rating colours. */
  lemma DarkGreenIsNoRatingColor(c: Rating.Color)
    ensures ApiDifficulty.Rgb(c) != DarkGreen
  {
  }

  /** `format!("<t:{timestamp}:F>(<t:{timestamp}:R>)")`: Discord's full-date and relative
      renderings of the same instant. */
  function StartField(start: int): string {
    "<t:" + Decimal(start) + ":F>(<t:" + Decimal(start) + ":R>)"
  }

  /** Both timestamps of the start field read back as the contest's start. */
  lemma StartFieldTimestamps(start: int)
    ensures var v := StartField(start); var n := |Decimal(start)|;
      |v| == 2 * n + 14
      && ParseDecimal(v[3..3 + n]) == Some(start)
      && ParseDecimal(v[n + 10..2 * n + 10]) == Some(start)
  {
    var d := Decimal(start);
    var n := |d|;
    var v := StartField(start);
    assert v == "<t:" + d + ":F>(" + "<t:" + d + ":R>)";
    assert v[3..3 + n] == d;
    assert v[n + 10..2 * n + 10] == d;
    DecimalRoundTrip(start);
  }

  /** The embed a reminder task sends. */
  function ReminderEmbed(c: ContestItem): (e: Embed)
    ensures e.title == Some("まもなく" + c.name + "が始まります！") && e.url == Some(c.url)
    ensures |e.fields| == 3 && forall i :: 0 <= i < 3 ==> !e.fields[i].inline
    ensures e.fields[0] == Field("開始時刻", StartField(c.startTime), false)
    ensures e.fields[1].name == "時間" && e.fields[2] == Field("レーティング変化", c.ratedRange, false)
    ensures e.color == DarkGreen
  {
    Embed(
      Some("まもなく" + c.name + "が始まります！"),
      Some(c.url),
      [Field("開始時刻", StartField(c.startTime), false),
       Field("時間", Decimal(c.duration) + "分", false),
       Field("レーティング変化", c.ratedRange, false)],
      DarkGreen)
  }

  /** The duration field reads back as the contest's length in minutes. */
  lemma DurationField(c: ContestItem)
    ensures var v := ReminderEmbed(c).fields[1].value;
      |v| >= 2 && ParseDecimal(v[..|v| - 1]) == Some(c.duration as int) && v[|v| - 1] == '分'
  {
    var v := ReminderEmbed(c).fields[1].value;
    assert v[..|v| - 1] == Decimal(c.duration);
    DecimalRoundTrip(c.duration);
  }

  /** `mention.map_or("", |m| m.mention())`: a role mention `<@&id>`, empty when no role is set. */
  function MentionContent(mention: Option<RoleId>): (s: string)
    ensures s == "" <==> mention.None?
    ensures mention.Some? ==> |s| >= 5 && s[..3] == "<@&" && ParseDecimal(s[3..|s| - 1]) == Some(mention.value)
  {
    match mention
    case None => ""
    case Some(id) =>
      var s := "<@&" + Decimal(id) + ">";
      assert s[3..|s| - 1] == Decimal(id);
      DecimalRoundTrip(id);
      s
  }

  /** The reminder message: the mention as content, the embed below it. */
  datatype Reminder = Reminder(content: string, embed: Embed)

  function ReminderFor(c: ContestItem, mention: Option<RoleId>): Reminder {
    Reminder(MentionContent(mention), ReminderEmbed(c))
  }

  /** `(start_time - NOTIFICATION_BEFORE - now).to_std()` in a spawned task: at the scan's own
      instant the sleep until the reminder is never negative. */
  lemma SpawnSleep(contests: seq<ContestItem>, kinds: set<ContestKind>, now: int, c: ContestItem)
    requires c in Select(contests, kinds, now)
    ensures var s := ToStd(ReminderAt(c) - now); s.Some? && now + s.value == ReminderAt(c) && s.value < Day
  {
  }

  /** The same computation at a spawned task's own clock read, taken no earlier than the scan's:
      `to_std` succeeds exactly when that read is not past the reminder time, and then that task
      wakes at the reminder time, less than a day after the scan. */
  lemma TaskClockSleep(contests: seq<ContestItem>, kinds: set<ContestKind>, now: int, spawnNow: int, c: ContestItem)
    requires c in Select(contests, kinds, now) && now <= spawnNow
    ensures ToStd(ReminderAt(c) - spawnNow).Some? <==> spawnNow <= ReminderAt(c)
    ensures ToStd(ReminderAt(c) - spawnNow).Some? ==>
      spawnNow + ToStd(ReminderAt(c) - spawnNow).value == ReminderAt(c) && ToStd(ReminderAt(c) - spawnNow).value < Day
  {
    SpawnSleep(contests, kinds, now, c);
  }

  /** Different role settings give different message contents. */
  lemma MentionInjective(a: Option<RoleId>, b: Option<RoleId>)
    requires a != b
    ensures MentionContent(a) != MentionContent(b)
  {
  }

  /** The reminders one scan spawns, one per selected contest, in order, when every task finds
      `mention` stored at its wake. */
  function Reminders(contests: seq<ContestItem>, kinds: set<ContestKind>, now: int, mention: Option<RoleId>): (r: seq<Reminder>)
    ensures var sel := Select(contests, kinds, now);
      && |r| == |sel|
      && forall i :: 0 <= i < |r| ==>
           r[i].content == MentionContent(mention) && r[i].embed == ReminderEmbed(sel[i])
           && r[i].embed.url == Some(sel[i].url)
  {
    var sel := Select(contests, kinds, now);
    seq(|sel|, i requires 0 <= i < |sel| => ReminderFor(sel[i], mention))
  }

  /** The step of a spawned task that panics. */
  datatype TaskStep = NegativeSleep | LoadFailed | NoChannel | SendFailed

  datatype TaskOutcome = Delivered(channel: ChannelId, message: Reminder) | Panicked(step: TaskStep)

  /** One spawned task. `spawnNow` is its own clock read, `loaded` the configuration `load()`
      returns when it wakes (`None` when loading fails), and `sendOk` whether `send_message`
      succeeds. Each of the four `unwrap`s panics in turn: a negative sleep, a failed load,
      an unset channel, a failed send. The mention is the one stored at wake time. */
  function RunTask(c: ContestItem, spawnNow: int, loaded: Option<Config>, sendOk: bool): (r: TaskOutcome)
    ensures r == Panicked(NegativeSleep) <==> ReminderAt(c) < spawnNow
    ensures r == Panicked(LoadFailed) <==> ReminderAt(c) >= spawnNow && loaded.None?
    ensures r == Panicked(NoChannel) <==> ReminderAt(c) >= spawnNow && loaded.Some? && loaded.value.channel.None?
    ensures r.Delivered? <==> ReminderAt(c) >= spawnNow && loaded.Some? && loaded.value.channel.Some? && sendOk
    ensures r.Delivered? ==> r.channel == loaded.value.channel.value && r.message == ReminderFor(c, loaded.value.mention)
  {
    match ToStd(ReminderAt(c) - spawnNow)
    case None => Panicked(NegativeSleep)
    case Some(_) =>
      match loaded
      case None => Panicked(LoadFailed)
      case Some(data) =>
        match data.channel
        case None => Panicked(NoChannel)
        case Some(channel) =>
          if sendOk then Delivered(channel, ReminderFor(c, data.mention)) else Panicked(SendFailed)
  }

  /** A role changed between the scan and a task's wake changes what that task sends: the
      mention is read at wake, not at scan time. */
  lemma MentionReadAtWake(c: ContestItem, spawnNow: int, before: Config, after: Config)
    requires ReminderAt(c) >= spawnNow && before.channel.Some? && after.channel.Some?
    requires before.mention != after.mention
    ensures RunTask(c, spawnNow, Some(before), true).message.content
         != RunTask(c, spawnNow, Some(after), true).message.content
  {
    MentionInjective(before.mention, after.mention);
  }

  /** When a task spawned by one scan reads the clock no later than its reminder time, wakes
      to the stored configuration with a channel set, and its send succeeds, it delivers its
      entry of the `Reminders` list to that channel. */
  lemma RemindersAreTasks(contests: seq<ContestItem>, kinds: set<ContestKind>, now: int, spawnNow: int,
                          data: Config, i: nat)
    requires data.channel.Some?
    requires i < |Select(contests, kinds, now)|
    requires spawnNow <= ReminderAt(Select(contests, kinds, now)[i])
    ensures RunTask(Select(contests, kinds, now)[i], spawnNow, Some(data), true)
         == Delivered(data.channel.value, Reminders(contests, kinds, now, data.mention)[i])
  {
    var c := Select(contests, kinds, now)[i];
    assert c in Select(contests, kinds, now);
  }

  /** A spawned task's own clock read matters: a contest selected by the scan at instant 0 whose
      reminder is due at 0 panics in a task that reads the clock one second later. */
  lemma LateTaskClockPanics()
    ensures var c := ContestItem(300, "AtCoder Beginner Contest 400", 100, "- 1999", "https://atcoder.jp/contests/abc400");
      && c in Select([c], {Abc}, 0)
      && RunTask(c, 1, Some(Config(Some(7), {}, {Abc}, None)), true) == Panicked(NegativeSleep)
  {
    var c := ContestItem(300, "AtCoder Beginner Contest 400", 100, "- 1999", "https://atcoder.jp/contests/abc400");
    ContainsAt(c.name, Phrase(Abc), 0);
    assert Abc in {Abc};
    assert KindMatches({Abc}, c.name);
  }
}
