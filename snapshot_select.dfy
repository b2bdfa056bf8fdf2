/** The snapshot choice of the "/hosts/{hostname}/on/{date}" handler (showBackupDate).

    The handler scans the host's date list in the order the store returns it and,
    every time a stored date lies strictly after the requested instant t, records
    the index just before it. The scan never stops early, so the LAST such date
    wins; a recorded -1 is turned into 0, and 0 is also the answer when no stored
    date is after t. The list is then indexed with the result, which panics on an
    empty list. */
module SnapshotSelect {
  import opened Store

  /** The last index whose date is strictly after t, or -1 when there is none. */
  function LastAfter(dates: seq<Instant>, t: Instant): (last: int)
    ensures -1 <= last < |dates|
    ensures last == -1 <==> forall i :: 0 <= i < |dates| ==> dates[i] <= t
    ensures 0 <= last ==> t < dates[last]
    ensures forall i :: last < i < |dates| ==> dates[i] <= t
    decreases |dates|
  {
    if |dates| == 0 then -1
    else if t < dates[|dates| - 1] then |dates| - 1
    else LastAfter(dates[..|dates| - 1], t)
  }

  /** The index the handler reads: one before the last date after t, never below 0. */
  function SelectedIndex(dates: seq<Instant>, t: Instant): (idx: nat)
    ensures |dates| > 0 ==> idx < |dates|
    ensures |dates| >= 2 ==> idx <= |dates| - 2
    ensures (forall i :: 0 <= i < |dates| ==> dates[i] <= t) ==> idx == 0
  {
    var last := LastAfter(dates, t);
    if last <= 0 then 0 else last - 1
  }

  /** The scan of the handler: `for i, date := range datesStore`, then the clamp. */
  method SelectIndex(dates: seq<Instant>, t: Instant) returns (idx: int)
    ensures idx == SelectedIndex(dates, t)
  {
    idx := 0;
    for i := 0 to |dates|
      invariant idx == (var last := LastAfter(dates[..i], t); if last == -1 then 0 else last - 1)
    {
      assert dates[..i + 1][..i] == dates[..i];
      if t < dates[i] {
        idx := i - 1;
      }
    }
    assert dates[..|dates|] == dates;
    if idx == -1 {
      idx := 0;
    }
  }

  /** What the handler writes: the host, the chosen snapshot's date and its content. */
  datatype EntryPage = EntryPage(hostname: Host, date: Instant, content: string)

  /** The handler's outcomes: a 500 response after a failed call, a run-time panic
      from indexing an empty list, or the rendered snapshot. */
  datatype ShowOutcome = ServerError | IndexPanic | Shown(page: EntryPage)

  /** The whole handler. `date` is what parsing the URL's date gave, `dates` the
      answer of the store's Dates call for the host, and `get` the store's Get call. */
  method ShowBackupDate(hostname: Host, date: Result<Instant>, dates: Result<seq<Instant>>,
                        get: (Host, Instant) -> Result<string>)
    returns (out: ShowOutcome)
    ensures out == IndexPanic <==> date.Ok? && dates.Ok? && |dates.value| == 0
    ensures out == ServerError <==>
      date.Err? || dates.Err?
      || (|dates.value| > 0 && get(hostname, dates.value[SelectedIndex(dates.value, date.value)]).Err?)
    ensures out.Shown? <==>
      date.Ok? && dates.Ok? && |dates.value| > 0
      && get(hostname, dates.value[SelectedIndex(dates.value, date.value)]).Ok?
    ensures out.Shown? ==>
      var snap := dates.value[SelectedIndex(dates.value, date.value)];
      out.page == EntryPage(hostname, snap, get(hostname, snap).value)
  {
    if date.Err? || dates.Err? {
      return ServerError;
    }
    var t, datesStore := date.value, dates.value;
    var idx := SelectIndex(datesStore, t);
    if idx < 0 || idx >= |datesStore| {
      return IndexPanic;
    }
    var content := get(hostname, datesStore[idx]);
    if content.Err? {
      return ServerError;
    }
    out := Shown(EntryPage(hostname, datesStore[idx], content.value));
  }

  /** The exact result: with L the last index whose date is after t, the handler
      reads index L - 1, or 0 when L is 0. */
  lemma SelectedBeforeLastLater(dates: seq<Instant>, t: Instant, last: nat)
    requires last < |dates| && t < dates[last]
    requires forall i :: last < i < |dates| ==> dates[i] <= t
    ensures SelectedIndex(dates, t) == if last == 0 then 0 else last - 1
  {
  }

  /** In a newest-first list the dates after t are a prefix of some length k; the
      handler then reads index k - 2 (or 0). For k >= 1 that is not index k, the
      newest date at or before t; for k = 0 it is index k itself. */
  lemma SelectedInNewestFirst(dates: seq<Instant>, t: Instant, k: nat)
    requires k <= |dates|
    requires forall i :: 0 <= i < k ==> t < dates[i]
    requires forall i :: k <= i < |dates| ==> dates[i] <= t
    ensures SelectedIndex(dates, t) == if k <= 1 then 0 else k - 2
  {
    if k > 0 {
      SelectedBeforeLastLater(dates, t, k - 1);
    }
  }

  /** In an oldest-first list the dates after t are a suffix starting at k; the
      handler then reads the second-to-last index (the only one, for a single
      date) whatever t is, as long as some date is after t, and the oldest
      snapshot otherwise. */
  lemma SelectedInOldestFirst(dates: seq<Instant>, t: Instant, k: nat)
    requires k <= |dates|
    requires forall i :: 0 <= i < k ==> dates[i] <= t
    requires forall i :: k <= i < |dates| ==> t < dates[i]
    ensures SelectedIndex(dates, t) == if k == |dates| || |dates| == 1 then 0 else |dates| - 2
  {
  }

  /** In a strictly newest-first list whose dates are all at or before t, the
      handler reads index 0, the newest date at or before t: the one case in which
      the snapshot shown is at or before t. As soon as one date is after t, the
      snapshot shown is after t (NewestFirstShowsLaterSnapshot). */
  lemma NewestFirstAllBeforeShowsNearest(dates: seq<Instant>, t: Instant)
    requires |dates| > 0
    requires forall i, k :: 0 <= i < k < |dates| ==> dates[k] < dates[i]
    requires forall i :: 0 <= i < |dates| ==> dates[i] <= t
    ensures SelectedIndex(dates, t) == 0
    ensures dates[0] <= t && forall i :: 0 <= i < |dates| ==> dates[i] <= dates[0]
  {
    SelectedInNewestFirst(dates, t, 0);
  }

  /** In a strictly newest-first list, as soon as one stored date is after t the
      snapshot shown is after t as well: never one taken on or before t. */
  lemma NewestFirstShowsLaterSnapshot(dates: seq<Instant>, t: Instant, j: nat)
    requires forall i, k :: 0 <= i < k < |dates| ==> dates[k] < dates[i]
    requires j < |dates| && t < dates[j]
    ensures t < dates[SelectedIndex(dates, t)]
  {
  }

  /** No stored date is at or before t: the handler does not report that nothing
      exists before t, it reads the second-to-last snapshot (the only one, for a
      single-entry list), which is after t. Whatever the order of the list, every
      date is then after t, which is the oldest-first case with an empty prefix. */
  lemma NothingBeforeStillShowsSnapshot(dates: seq<Instant>, t: Instant)
    requires |dates| > 0
    requires forall i :: 0 <= i < |dates| ==> t < dates[i]
    ensures SelectedIndex(dates, t) == if |dates| == 1 then 0 else |dates| - 2
    ensures t < dates[SelectedIndex(dates, t)]
  {
    SelectedInOldestFirst(dates, t, 0);
  }

  /** Two snapshots, newest first: every requested instant, including one between
      them and one before both, shows the newer snapshot. */
  lemma TwoSnapshotsShowNewer(newer: Instant, older: Instant, t: Instant)
    requires older < newer
    ensures SelectedIndex([newer, older], t) == 0
  {
  }
}
