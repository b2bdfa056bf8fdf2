/** How the dashboard labels a host's latest backup (dashboardAgo and
    dashboardAgoStatus): two thresholds in hours, `warning` and `danger`, applied
    to the time elapsed since the backup. The elapsed time is computed from the
    clock reading `now` instead of calling time.Since. */
module Staleness {
  import opened Store

  const NANOS_PER_HOUR: int := 3_600_000_000_000

  /** Duration.Hours() of the time from `last` to `now`. */
  function ElapsedHours(last: Instant, now: Instant): (hours: real)
    ensures hours * NANOS_PER_HOUR as real == (now - last) as real
  {
    (now - last) as real / NANOS_PER_HOUR as real
  }

  /** Go's conversion int(x) of a float: the fraction is dropped, toward zero. */
  function TruncToInt(x: real): (n: int)
    ensures 0.0 <= x ==> 0 <= n && n as real <= x < n as real + 1.0
    ensures x < 0.0 ==> n <= 0 && n as real - 1.0 < x <= n as real
  {
    if x >= 0.0 then x.Floor else -((-x).Floor)
  }

  /** Go's integer division hours / 24, which truncates toward zero. */
  function WholeDays(hours: int): (days: int)
    ensures 0 <= hours ==> 0 <= days && days * 24 <= hours < days * 24 + 24
    ensures hours < 0 ==> days <= 0 && days * 24 - 24 < hours <= days * 24
  {
    if hours >= 0 then hours / 24 else -((-hours) / 24)
  }

  /** The text dashboardAgo formats: "No backup", "%d days ago" or "%d hours ago". */
  datatype AgoText = NoBackup | DaysAgo(days: int) | HoursAgo(hours: int)

  /** The label dashboardAgoStatus returns: "default", "success", "warning" or "danger". */
  datatype Status = Default | Success | Warning | Danger

  /** dashboardAgo: the days form past `danger` hours, the hours form otherwise. */
  function Ago(last: Option<Instant>, now: Instant, warning: int, danger: int): (text: AgoText)
    ensures text == NoBackup <==> last.None?
    ensures text.DaysAgo? <==> last.Some? && ElapsedHours(last.value, now) > danger as real
    ensures text.HoursAgo? <==> last.Some? && ElapsedHours(last.value, now) <= danger as real
  {
    match last
    case None => NoBackup
    case Some(t) =>
      var hours := ElapsedHours(t, now);
      if hours > danger as real then DaysAgo(WholeDays(TruncToInt(hours)))
      else if hours > warning as real then HoursAgo(TruncToInt(hours))
      else HoursAgo(TruncToInt(hours))
  }

  /** dashboardAgoStatus: "danger" past `danger` hours, else "warning" past
      `warning` hours, else "success". */
  function AgoStatus(last: Option<Instant>, now: Instant, warning: int, danger: int): (status: Status)
    ensures status == Default <==> last.None?
    ensures status == Danger <==> last.Some? && ElapsedHours(last.value, now) > danger as real
    ensures status == Warning <==>
      last.Some? && warning as real < ElapsedHours(last.value, now) <= danger as real
    ensures status == Success <==>
      last.Some? && ElapsedHours(last.value, now) <= warning as real
      && ElapsedHours(last.value, now) <= danger as real
  {
    match last
    case None => Default
    case Some(t) =>
      var hours := ElapsedHours(t, now);
      if hours > danger as real then Danger
      else if hours > warning as real then Warning
      else Success
  }

  /** The number in the text is the whole number of elapsed days, or of elapsed
      hours, with the fraction dropped toward zero: for a backup in the past it
      brackets the elapsed hours from below, for one dated in the future from above. */
  lemma CountsBracketElapsed(t: Instant, now: Instant, warning: int, danger: int)
    ensures var text := Ago(Some(t), now, warning, danger);
      text.DaysAgo? && t <= now ==>
        text.days as real * 24.0 <= ElapsedHours(t, now) < text.days as real * 24.0 + 24.0
    ensures var text := Ago(Some(t), now, warning, danger);
      text.DaysAgo? && now < t ==>
        text.days as real * 24.0 - 24.0 < ElapsedHours(t, now) <= text.days as real * 24.0
    ensures var text := Ago(Some(t), now, warning, danger);
      text.HoursAgo? && t <= now ==>
        text.hours as real <= ElapsedHours(t, now) < text.hours as real + 1.0
    ensures var text := Ago(Some(t), now, warning, danger);
      text.HoursAgo? && now < t ==>
        text.hours as real - 1.0 < ElapsedHours(t, now) <= text.hours as real
  {
  }

  /** The `warning` threshold plays no part in the text: the warning branch and
      the fall-through of dashboardAgo format the same hours form. */
  lemma AgoIgnoresWarning(last: Option<Instant>, now: Instant, warning1: int, warning2: int, danger: int)
    ensures Ago(last, now, warning1, danger) == Ago(last, now, warning2, danger)
  {
  }

  /** For one backup and one clock reading, the text is in days exactly when the
      status is "danger", and reads "No backup" exactly when the status is "default". */
  lemma AgoAgreesWithStatus(last: Option<Instant>, now: Instant, warning: int, danger: int)
    ensures Ago(last, now, warning, danger).DaysAgo? <==> AgoStatus(last, now, warning, danger) == Danger
    ensures Ago(last, now, warning, danger) == NoBackup <==> AgoStatus(last, now, warning, danger) == Default
    ensures Ago(last, now, warning, danger).HoursAgo? <==>
      AgoStatus(last, now, warning, danger) in {Warning, Success}
  {
  }

  /** With warning >= danger the "warning" label can never be returned. */
  lemma WarningUnreachable(last: Option<Instant>, now: Instant, warning: int, danger: int)
    requires warning >= danger
    ensures AgoStatus(last, now, warning, danger) != Warning
  {
  }

  /** The severity order of the labels of a present backup. */
  function Severity(status: Status): (rank: nat)
  {
    match status
    case Default => 0
    case Success => 0
    case Warning => 1
    case Danger => 2
  }

  /** As the clock moves forward the label of a backup only gets more severe. */
  lemma StatusMonotone(t: Instant, now1: Instant, now2: Instant, warning: int, danger: int)
    requires now1 <= now2
    ensures Severity(AgoStatus(Some(t), now1, warning, danger)) <= Severity(AgoStatus(Some(t), now2, warning, danger))
  {
  }
}
