/** The "/dashboard" handler (dashboard): one entry per host, with the host's
    latest backup and, on the HTML page, how stale it is.

    The host names are what the store's Names call returned; `answers[i]` is what
    the store's Dates call returned for `names[i]`. A host whose Dates call fails is
    skipped; the entries of the others keep the order of `names`. The JSON branch
    and the HTML branch run the same loop and differ only in the entry they append. */
module Dashboard {
  import opened Store
  import opened Staleness

  /** The thresholds the HTML branch passes to dashboardAgo and dashboardAgoStatus. */
  const WARNING_HOURS: int := 24
  const DANGER_HOURS: int := 72

  /** An entry of the JSON document: Hostname and LastBackup (omitted when nil). */
  datatype JsonEntry = JsonEntry(hostname: Host, lastBackup: Option<Instant>)

  /** An entry of the HTML page: also the staleness text and label. */
  datatype HtmlEntry = HtmlEntry(hostname: Host, lastBackup: Option<Instant>, ago: AgoText, agoStatus: Status)

  /** The latest backup of a host: the first date of its list, none for an empty
      list. The list is taken in the store's order; nothing sorts it. */
  function LatestBackup(dates: seq<Instant>): (latest: Option<Instant>)
    ensures latest.None? <==> |dates| == 0
    ensures latest.Some? ==> latest.value == dates[0]
  {
    if |dates| > 0 then Some(dates[0]) else None
  }

  /** The indices of the hosts whose Dates call succeeded, in increasing order. */
  function Kept(answers: seq<Result<seq<Instant>>>): (kept: seq<nat>)
    ensures |kept| <= |answers|
    ensures forall j :: 0 <= j < |kept| ==> kept[j] < |answers| && answers[kept[j]].Ok?
    ensures forall j, k :: 0 <= j < k < |kept| ==> kept[j] < kept[k]
    ensures forall i :: 0 <= i < |answers| && answers[i].Ok? ==> i in kept
    decreases |answers|
  {
    if |answers| == 0 then []
    else
      var n := |answers| - 1;
      Kept(answers[..n]) + (if answers[n].Ok? then [n] else [])
  }

  /** The loop of the JSON branch. */
  method JsonEntries(names: seq<Host>, answers: seq<Result<seq<Instant>>>) returns (data: seq<JsonEntry>)
    requires |answers| == |names|
    ensures |data| == |Kept(answers)| <= |names|
    ensures forall j :: 0 <= j < |data| ==>
      data[j] == JsonEntry(names[Kept(answers)[j]], LatestBackup(answers[Kept(answers)[j]].value))
  {
    data := [];
    for i := 0 to |names|
      invariant |data| == |Kept(answers[..i])|
      invariant forall j :: 0 <= j < |data| ==>
        data[j] == JsonEntry(names[Kept(answers[..i])[j]], LatestBackup(answers[Kept(answers[..i])[j]].value))
    {
      assert answers[..i + 1][..i] == answers[..i];
      var dates := answers[i];
      if dates.Err? {
        continue;
      }
      var date := if |dates.value| > 0 then Some(dates.value[0]) else None;
      data := data + [JsonEntry(names[i], date)];
    }
    assert answers[..|names|] == answers;
  }

  /** The HTML entry of a host whose Dates call returned `dates`, at clock reading `now`. */
  function HtmlEntryFor(name: Host, dates: seq<Instant>, now: Instant): (entry: HtmlEntry)
  {
    var latest := LatestBackup(dates);
    HtmlEntry(name, latest, Ago(latest, now, WARNING_HOURS, DANGER_HOURS),
              AgoStatus(latest, now, WARNING_HOURS, DANGER_HOURS))
  }

  /** The loop of the HTML branch, with the clock read once as `now`. */
  method HtmlEntries(names: seq<Host>, answers: seq<Result<seq<Instant>>>, now: Instant)
    returns (entries: seq<HtmlEntry>)
    requires |answers| == |names|
    ensures |entries| == |Kept(answers)| <= |names|
    ensures forall j :: 0 <= j < |entries| ==>
      entries[j] == HtmlEntryFor(names[Kept(answers)[j]], answers[Kept(answers)[j]].value, now)
  {
    entries := [];
    for i := 0 to |names|
      invariant |entries| == |Kept(answers[..i])|
      invariant forall j :: 0 <= j < |entries| ==>
        entries[j] == HtmlEntryFor(names[Kept(answers[..i])[j]], answers[Kept(answers[..i])[j]].value, now)
    {
      assert answers[..i + 1][..i] == answers[..i];
      var dates := answers[i];
      if dates.Err? {
        continue;
      }
      var date := if |dates.value| > 0 then Some(dates.value[0]) else None;
      entries := entries + [HtmlEntry(names[i], date,
                                      Ago(date, now, WARNING_HOURS, DANGER_HOURS),
                                      AgoStatus(date, now, WARNING_HOURS, DANGER_HOURS))];
    }
    assert answers[..|names|] == answers;
  }

  /** When every Dates call succeeds, every host gets an entry, in Names order. */
  lemma {:induction false} KeptAllSucceeded(answers: seq<Result<seq<Instant>>>)
    requires forall i :: 0 <= i < |answers| ==> answers[i].Ok?
    ensures Kept(answers) == seq(|answers|, i => i)
    decreases |answers|
  {
    if |answers| > 0 {
      var n := |answers| - 1;
      assert forall i :: 0 <= i < n ==> answers[..n][i].Ok?;
      KeptAllSucceeded(answers[..n]);
      assert seq(n, i => i) + [n] == seq(|answers|, i => i);
    }
  }

  /** When every Dates call fails, the dashboard has no entry at all: it follows
      from Kept's contract, since every kept index is a successful answer. */
  lemma KeptNoneSucceeded(answers: seq<Result<seq<Instant>>>)
    requires forall i :: 0 <= i < |answers| ==> answers[i].Err?
    ensures Kept(answers) == []
  {
  }

  /** If the store lists dates newest first, the latest backup is the newest date;
      the handler relies on that order without checking it. */
  lemma LatestIsNewestWhenNewestFirst(dates: seq<Instant>)
    requires forall i, k :: 0 <= i < k < |dates| ==> dates[k] < dates[i]
    ensures LatestBackup(dates).Some? ==> forall i :: 0 <= i < |dates| ==> dates[i] <= LatestBackup(dates).value
  {
  }

  /** If the store lists dates oldest first, the "latest backup" is the oldest date. */
  lemma LatestIsOldestWhenOldestFirst(dates: seq<Instant>)
    requires forall i, k :: 0 <= i < k < |dates| ==> dates[i] < dates[k]
    ensures LatestBackup(dates).Some? ==> forall i :: 0 <= i < |dates| ==> LatestBackup(dates).value <= dates[i]
  {
  }

  /** With the thresholds 24 and 72: a "warning" entry reads between 24 and 72
      hours ago, a "success" entry at most 24 hours ago, and a "danger" entry at
      least 3 days ago. */
  lemma DashboardTextRanges(t: Instant, now: Instant)
    ensures AgoStatus(Some(t), now, WARNING_HOURS, DANGER_HOURS) == Warning ==>
      var text := Ago(Some(t), now, WARNING_HOURS, DANGER_HOURS);
      text.HoursAgo? && 24 <= text.hours <= 72
    ensures AgoStatus(Some(t), now, WARNING_HOURS, DANGER_HOURS) == Success ==>
      var text := Ago(Some(t), now, WARNING_HOURS, DANGER_HOURS);
      text.HoursAgo? && text.hours <= 24
    ensures AgoStatus(Some(t), now, WARNING_HOURS, DANGER_HOURS) == Danger ==>
      var text := Ago(Some(t), now, WARNING_HOURS, DANGER_HOURS);
      text.DaysAgo? && 3 <= text.days
  {
  }
}
