# netbweb handlers: snapshot choice, staleness labels and dashboard entries

netbweb is a small web front end over a store of per-host configuration
backups. For each host the store keeps a list of backup dates and, for each
date, the backed-up text. This project models the decision logic inside the
HTTP handlers of `handlers.go`, as the code is written:

- `SnapshotSelect` handles the "/hosts/{hostname}/on/{date}" handler
  (`showBackupDate`). For a requested instant `t` it scans the host's dates.
  Each time a date is strictly after `t`, it records the previous index. The
  scan never stops early, so the last such date wins. A recorded `-1` becomes
  `0`, and `0` is also the result when no date is after `t`. The handler then
  fetches and shows the snapshot at that index. `SelectIndex` is the loop,
  proved against the function `SelectedIndex`. `ShowBackupDate` is the whole
  handler, including its 500 paths and the panic on an empty date list.
  The comment above the loop says "on or after", which is not what the loop
  computes. The lemmas state what it does compute:
  - newest-first list: the dates after `t` form a prefix of length `k`, and
    the handler reads index `k - 2` (or 0); only when no date is after `t`
    (k = 0) is that the newest date at or before `t`;
  - newest-first list with any date after `t`: the snapshot shown is itself
    after `t`;
  - oldest-first list: the handler reads the second-to-last snapshot (the
    only one for a single date) whenever any date is after `t`;
  - `t` before every stored date: no failure is reported and a stored
    snapshot, dated after `t`, is still shown (the oldest-first case with
    no date at or before `t`).
- `Staleness` models `dashboardAgo` and `dashboardAgoStatus`. Each takes an
  optional backup instant and two thresholds, `warning` and `danger`, in
  hours. The text is a datatype (`NoBackup`, `DaysAgo(n)`, `HoursAgo(n)`)
  and so is the label (`Default`, `Success`, `Warning`, `Danger`). The lemmas
  prove four things:
  - the text ignores `warning`;
  - the text is in days exactly when the label is "danger";
  - "warning" cannot occur when `warning >= danger`;
  - the label only gets more severe as time passes.
- `Dashboard` models the two loops of `dashboard` (JSON and HTML). Each
  appends one entry per host whose Dates call succeeded, in Names order.
  An entry's latest backup is the first date of the host's list, or none
  for an empty list. The HTML entries also carry the staleness text and
  label for the thresholds 24 and 72. Both methods are specified through
  `Kept`, the increasing list of indices of the successful answers, and
  through the same `LatestBackup`. So the two branches agree on every entry's
  hostname and latest backup.

Instants (`Store.Instant`) are integers counting nanoseconds, and
`a.Before(b)` is `a < b`. The clock is a parameter `now`. Elapsed hours are
`(now - last) / 3600e9` as an exact real. Go's `int(float64)` and integer
`/` both truncate toward zero, and the model writes that out (`TruncToInt`,
`WholeDays`). Truncation differs from floor only when the elapsed time is
negative, that is, for a backup dated in the future. The store's answers are
inputs: a `Result` for the date parse and the Dates call, a sequence of
answers (one per host name) for the dashboard, and a function for Get.
Nothing assumes an order of a host's date list.

## Model

| member | source | states |
|---|---|---|
| SnapshotSelect.LastAfter | handlers.go:286-291 | the last index whose date is strictly after t, or -1 exactly when no date is after t; every later index holds a date at or before t |
| SnapshotSelect.SelectedIndex | handlers.go:286-295 | the chosen index is in range for a non-empty list, at most n-2 for n >= 2 (the last snapshot is never chosen), and 0 when no date is after t |
| SnapshotSelect.SelectIndex | handlers.go:286-295 | the scan that overwrites idx on every later date and then clamps -1 to 0 returns exactly SelectedIndex (so an in-range index for a non-empty list) |
| SnapshotSelect.ShowBackupDate | handlers.go:271-319 | the panic happens exactly for an empty date list; a 500 happens exactly when the parse, Dates or the Get of the snapshot at SelectedIndex fails; otherwise that snapshot is shown with its date and content; "no snapshot before date" is never reported |
| SnapshotSelect.SelectedBeforeLastLater | handlers.go:286-295 | with L the last index whose date is after t, the chosen index is L-1, or 0 when L is 0 |
| SnapshotSelect.SelectedInNewestFirst | handlers.go:285-295 | when the dates after t are a prefix of length k, the chosen index is k-2 (0 for k <= 1); for k >= 1 that is not k, the newest date at or before t, and for k = 0 it is k |
| SnapshotSelect.SelectedInOldestFirst | handlers.go:286-295 | when the dates after t are a suffix, the chosen index is n-2 whenever any date is after t (0 for a single date), and 0 otherwise, whatever t is |
| SnapshotSelect.NewestFirstAllBeforeShowsNearest | handlers.go:286-295 | in a strictly newest-first list whose dates are all at or before t, index 0 is chosen, and it is the newest date at or before t |
| SnapshotSelect.NewestFirstShowsLaterSnapshot | handlers.go:285-299 | in a strictly newest-first list with some date after t, the snapshot read is dated after t |
| SnapshotSelect.NothingBeforeStillShowsSnapshot | handlers.go:293-300 | when t predates every stored date, a stored snapshot dated after t is still chosen (index n-2, or 0 for one date) instead of a failure; proved as SelectedInOldestFirst with an empty prefix |
| SnapshotSelect.TwoSnapshotsShowNewer | handlers.go:286-295 | with two snapshots listed newest first, every requested instant shows the newer one |
| Staleness.ElapsedHours | handlers.go:103-104 | the elapsed hours times the nanoseconds per hour equal the nanoseconds from the backup to now |
| Staleness.TruncToInt | handlers.go:105-109 | int(x) drops the fraction toward zero: n <= x < n+1 for x >= 0, n-1 < x <= n for x < 0 |
| Staleness.WholeDays | handlers.go:105 | hours/24 truncates toward zero: days*24 <= hours < days*24+24 for hours >= 0, and days*24-24 < hours <= days*24 for hours < 0 |
| Staleness.Ago | handlers.go:99-110 | "No backup" exactly for no date; the days form exactly when elapsed hours exceed danger; the hours form exactly when they do not |
| Staleness.AgoStatus | handlers.go:112-123 | "default" exactly for no date; "danger" exactly above danger; "warning" exactly when warning < hours <= danger; "success" exactly when hours are at most both thresholds |
| Staleness.CountsBracketElapsed | handlers.go:104-109 | the number shown is the elapsed time in whole units, truncated toward zero: for a past backup days*24 <= hours < days*24+24 in the days form and n <= hours < n+1 in the hours form; for a future-dated backup the bounds are mirrored |
| Staleness.AgoIgnoresWarning | handlers.go:106-109 | the text does not depend on the warning threshold, because the warning branch and the fall-through format the same hours form |
| Staleness.AgoAgreesWithStatus | handlers.go:99-123 | for one backup and clock reading: days form iff "danger", "No backup" iff "default", hours form iff "warning" or "success" |
| Staleness.WarningUnreachable | handlers.go:117-121 | when warning >= danger the label is never "warning" |
| Staleness.StatusMonotone | handlers.go:116-122 | a later clock reading never gives a less severe label for the same backup |
| Dashboard.LatestBackup | handlers.go:38-43 | the latest backup is none exactly for an empty list, and otherwise the first listed date |
| Dashboard.Kept | handlers.go:32-36 | the indices of the successful Dates answers, strictly increasing, each one successful, every successful one present, no more than the hosts |
| Dashboard.JsonEntries | handlers.go:32-53 | one entry per host whose Dates call succeeded, in Names order, with that host's name and the first date of its list; at most one entry per host |
| Dashboard.HtmlEntries | handlers.go:69-93 | one entry per host whose Dates call succeeded, in Names order; each is HtmlEntryFor of that host (the entry literal of handlers.go:82-92): the same hostname and latest backup as the JSON branch, plus the Ago text and AgoStatus label for that backup at thresholds 24 and 72 |
| Dashboard.KeptAllSucceeded | handlers.go:32-53 | when every Dates call succeeds, every host gets an entry, in Names order |
| Dashboard.KeptNoneSucceeded | handlers.go:32-36 | when every Dates call fails, there are no entries (a consequence of Kept's contract) |
| Dashboard.LatestIsNewestWhenNewestFirst | handlers.go:38-43 | when the store lists dates newest first, the first date is the newest one; nothing in the handler checks that order |
| Dashboard.LatestIsOldestWhenOldestFirst | handlers.go:75-80 | when the store lists dates oldest first (strictly increasing), the "latest backup" is the oldest date |
| Dashboard.DashboardTextRanges | handlers.go:90-91 | with thresholds 24 and 72: a "warning" entry reads 24 to 72 hours ago, a "success" entry at most 24 hours ago, a "danger" entry at least 3 days ago |

## Left out

- main.go (routing, static files, the redirect, starting the server): wiring with no decision logic.
- HTTP requests and responses, the Accept-header choice between JSON and HTML, JSON encoding and mustache rendering: presentation done by libraries. The dashboard's two branches are modelled as two methods and the choice between them is not.
- The store (`Names`, `Dates`, `Get`) and `file.DefaultDateFormat`: their code is not part of this model. Their answers are inputs, and a host's date list may come in any order.
- The failure of `Names` in `dashboard` and the 500 response it causes: the entry loops start from the names already returned.
- Logging, and the text and status of the 500 responses: a failed call is modelled as the `ServerError` outcome only.
- `time.Parse`, `Format` and `String`: foreign calls with a layout not shown here. The parsed date is an input `Result`, and the displayed date is the `Instant` itself.
- `listHosts`, `listDates` and `hostBackup`: they pass the store's answers through to the renderer, with no decision logic.
- `apiDoc`: it takes no store and renders a fixed page.
- `diffBackup`: the diff is computed and rendered by an external library, and the handler only fetches the two snapshots.
- `fmt.Sprintf` texts: "No backup", "%d days ago" and "%d hours ago" are the datatype `AgoText`, and the four labels are the constructors of `Status`.
- Staleness.ElapsedHours: time.Since reads the clock, which is the parameter `now`; floating-point rounding in `Duration.Hours` and the saturation of `time.Sub` at the int64 range are not modelled (the hours are exact reals).
- Staleness.TruncToInt: the out-of-range results of Go's float-to-int conversion are not modelled.
- Dashboard.HtmlEntries: the source reads the clock separately in every `dashboardAgo` and `dashboardAgoStatus` call; the model reads it once for the whole page, so the agreement between text and label holds for one common reading.
- SnapshotSelect.ShowBackupDate: the panic on an empty date list is the outcome `IndexPanic`; how the HTTP server recovers from it is not modelled.
