/** The dashboard page (frontend/src/pages/Dashboard.jsx): the greeting,
    the attention count, and the labels and colours of the deadline and
    hearing lists. */
module Dashboard {
  import opened Common
  import opened Text
  import opened AuthStore
  import Numeric

  /** `getGreeting` at the local hour `hour`. */
  function Greeting(hour: int): (g: string)
    ensures hour < 12 ==> g == "Good morning"
    ensures 12 <= hour < 17 ==> g == "Good afternoon"
    ensures 17 <= hour ==> g == "Good evening"
  {
    if hour < 12 then "Good morning"
    else if hour < 17 then "Good afternoon"
    else "Good evening"
  }

  /** The greeting only moves forward through the day: a later hour never
      gets an earlier part of the day. */
  lemma GreetingMonotone(h1: int, h2: int)
    requires h1 <= h2
    ensures Greeting(h1) == "Good evening" ==> Greeting(h2) == "Good evening"
    ensures Greeting(h2) == "Good morning" ==> Greeting(h1) == "Good morning"
  {
  }

  /** `session?.name?.split(' ')[0] || 'there'`. */
  function FirstName(session: Option<User>): (r: string)
    ensures r != "" && ' ' !in r
    ensures session.None? ==> r == "there"
  {
    if session.Some? && Split(session.value.name, ' ')[0] != "" then Split(session.value.name, ' ')[0]
    else "there"
  }

  /** The dashboard addresses a signed-in user by the word the sign-in
      welcome used, unless the name starts with a space or is empty. */
  lemma FirstNameIsWelcomeWord(u: User)
    ensures FirstWord(u.name) != "" ==> FirstName(Some(u)) == FirstWord(u.name)
    ensures FirstWord(u.name) == "" ==> FirstName(Some(u)) == "there"
  {
    FirstWordIsSplitHead(u.name);
  }

  /** `(c.overdueTasks || 0) + (c.overdueDocs || 0)`. */
  function AttentionItems(overdueTasks: Option<nat>, overdueDocs: Option<nat>): nat {
    overdueTasks.GetOr(0) + overdueDocs.GetOr(0)
  }

  /** The line under the greeting. */
  function AttentionLine(n: nat): string {
    if n > 0 then NatToString(n) + " items need your attention today" else "All caught up!"
  }

  /** The dashboard is "all caught up" exactly when neither count is known
      to be positive. */
  lemma CaughtUpIff(overdueTasks: Option<nat>, overdueDocs: Option<nat>)
    ensures AttentionLine(AttentionItems(overdueTasks, overdueDocs)) == "All caught up!" <==>
              overdueTasks.GetOr(0) == 0 && overdueDocs.GetOr(0) == 0
  {
    var n := AttentionItems(overdueTasks, overdueDocs);
    if n > 0 {
      var s := NatToString(n) + " items need your attention today";
      assert |s| > |"All caught up!"|;
    }
  }

  const DayMs: int := 86400000

  /** `Math.ceil((date - now) / 86400000)`. */
  function DaysLeft(date: int, now: int): int {
    Numeric.CeilDiv(date - now, DayMs)
  }

  /** The label of a week deadline. */
  function DeadlineLabel(daysLeft: int): (r: string)
    ensures daysLeft <= 0 ==> r == "TODAY"
    ensures daysLeft == 1 ==> r == "TOMORROW"
    ensures daysLeft > 1 ==> r == IntToString(daysLeft) + " days left"
  {
    if daysLeft <= 0 then "TODAY" else if daysLeft == 1 then "TOMORROW" else IntToString(daysLeft) + " days left"
  }

  /** The colour of the label: rose up to one day, amber up to three, grey
      after. */
  function DeadlineTone(daysLeft: int): (r: string)
    ensures daysLeft <= 1 ==> r == "text-rose-600"
    ensures 1 < daysLeft <= 3 ==> r == "text-amber-600"
    ensures 3 < daysLeft ==> r == "text-gray-400"
  {
    if daysLeft <= 1 then "text-rose-600" else if daysLeft <= 3 then "text-amber-600" else "text-gray-400"
  }

  /** In milliseconds: a deadline already reached reads TODAY, one within
      the next 24 hours TOMORROW, and one further away counts its days
      rounded up. */
  lemma DeadlineLabelByGap(date: int, now: int)
    ensures DeadlineLabel(DaysLeft(date, now)) == "TODAY" <==> date <= now
    ensures DeadlineLabel(DaysLeft(date, now)) == "TOMORROW" <==> now < date <= now + DayMs
    ensures now + DayMs < date ==> var n := DaysLeft(date, now);
              n >= 2 && (n - 1) * DayMs < date - now <= n * DayMs
  {
    var n := DaysLeft(date, now);
    assert (n - 1) * DayMs < date - now <= n * DayMs;
    if n > 1 {
      var s := IntToString(n) + " days left";
      assert s[|s| - 1] == 't';
    }
  }

  /** The strip of an upcoming hearing. */
  datatype Strip = UrgentStrip | SoonStrip | NoStrip

  function HearingStrip(daysLeft: int): (s: Strip)
    ensures s == UrgentStrip <==> daysLeft <= 5
    ensures s == SoonStrip <==> 5 < daysLeft <= 14
    ensures s == NoStrip <==> 14 < daysLeft
  {
    if daysLeft <= 5 then UrgentStrip else if daysLeft <= 14 then SoonStrip else NoStrip
  }

  /** The URGENT tag shows exactly on the rose strip. */
  predicate UrgentTag(daysLeft: int) {
    daysLeft <= 5
  }

  /** In milliseconds: the rose strip marks a hearing at most five days
      ahead, the amber one a hearing more than five and at most fourteen
      days ahead. */
  lemma HearingStripByGap(date: int, now: int)
    ensures HearingStrip(DaysLeft(date, now)) == UrgentStrip <==> date - now <= 5 * DayMs
    ensures HearingStrip(DaysLeft(date, now)) == SoonStrip <==> 5 * DayMs < date - now <= 14 * DayMs
    ensures UrgentTag(DaysLeft(date, now)) <==> HearingStrip(DaysLeft(date, now)) == UrgentStrip
  {
    var n := DaysLeft(date, now);
    assert (n - 1) * DayMs < date - now <= n * DayMs;
  }
}
