/**
 One fetch from the exchange-rate provider, end to end: the provider's reply is
 read row by row, the surviving entries are stably sorted by timestamp, and the
 sorted list replaces the ViewModel's entries and cache. An exception that ends
 a fetch kills the process. Completions of several fetches are applied in the
 order they land.
 */
module Fetch {
  import opened Wrappers
  import opened TimeZone
  import opened Entries
  import opened Rows
  import opened Store

  const TimeColumn := "timeLastUpdateUtc"
  const RateColumn := "exchangeRate"
  const IdColumn := "id"

  /** The result set the provider returned: its column names and its rows. */
  datatype Cursor = Cursor(columns: set<string>, rows: seq<RawRow>)

  /** What the provider query gave back: it threw, it returned null, or a cursor. */
  datatype ProviderReply = QueryThrew | NullCursor | Opened(cursor: Cursor)

  /** How a fetch ended: it handed a list to UpdateEntries, or an exception ended it first. */
  datatype FetchOutcome = Completed(entries: seq<Entry>) | Aborted

  /**
   The column lookups for the time and rate cells sit outside the row's `try`:
   when the cursor has a row and lacks either column, the fetch ends with an
   exception. The `id` lookup only feeds a log line after the entry was kept.
   */
  predicate MissingColumnAborts(c: Cursor)
  {
    |c.rows| > 0 && (TimeColumn !in c.columns || RateColumn !in c.columns)
  }

  /** The whole background part of a fetch: read the rows, keep the parsed ones, sort them. */
  function RunFetch(reply: ProviderReply, parse: Parser, offset: OffsetAt): (o: FetchOutcome)
    ensures o.Aborted? <==> reply.QueryThrew? || (reply.Opened? && MissingColumnAborts(reply.cursor))
    ensures reply.NullCursor? ==> o == Completed([])
    ensures o.Completed? ==> SortedByTimestamp(o.entries)
    ensures o.Completed? && reply.Opened? ==>
              var parsed := ParseRows(parse, offset, reply.cursor.rows);
              && multiset(o.entries) == multiset(parsed)
              && |o.entries| == |reply.cursor.rows| - SkippedCount(parse, reply.cursor.rows)
  {
    match reply
    case QueryThrew => Aborted
    case NullCursor => Completed(SortByTimestamp([]))
    case Opened(c) =>
      if MissingColumnAborts(c) then Aborted
      else
        ParseRowsCount(parse, offset, c.rows);
        Completed(SortByTimestamp(ParseRows(parse, offset, c.rows)))
  }

  /**
   The app after a fetch ends. An exception that ends a fetch is not caught
   anywhere in the coroutine, so it kills the process: only the preference file
   survives, and the next launch starts from it.
   */
  datatype AppState = Alive(vm: ViewModel) | Killed(prefs: Prefs)

  /**
   The foreground hand-off: a completed fetch replaces entries and cache, an
   aborted one writes nothing and ends the process.
   */
  function ApplyOutcome(vm: ViewModel, o: FetchOutcome, encode: Encoder): (r: AppState)
    ensures r.Killed? <==> o.Aborted?
    ensures r.Killed? ==> r.prefs == vm.prefs
    ensures r.Alive? ==> r.vm.entries == o.entries
    ensures r.Alive? ==> EntriesKey in r.vm.prefs && r.vm.prefs[EntriesKey] == Text(encode(o.entries))
    ensures r.Alive? ==> r.vm.prefs - {EntriesKey} == vm.prefs - {EntriesKey}
    ensures r.Alive? && WellTyped(vm.prefs) ==> WellTyped(r.vm.prefs)
  {
    match o
    case Aborted => Killed(vm.prefs)
    case Completed(xs) => Alive(UpdateEntries(vm, xs, encode))
  }

  /**
   One loadDataFromContentProvider call, end to end: the app stays alive exactly
   when the fetch completes, and then shows and caches the fetched list; when
   the fetch aborts, the preference file is left as it was.
   */
  function LoadData(vm: ViewModel, reply: ProviderReply, parse: Parser, offset: OffsetAt, encode: Encoder): (r: AppState)
    ensures r.Alive? <==> !reply.QueryThrew? && !(reply.Opened? && MissingColumnAborts(reply.cursor))
    ensures r.Killed? ==> r.prefs == vm.prefs
    ensures r.Alive? ==> r.vm.entries == RunFetch(reply, parse, offset).entries
    ensures r.Alive? ==> SortedByTimestamp(r.vm.entries)
    ensures r.Alive? ==> EntriesKey in r.vm.prefs && r.vm.prefs[EntriesKey] == Text(encode(r.vm.entries))
    ensures r.Alive? ==> r.vm.prefs - {EntriesKey} == vm.prefs - {EntriesKey}
  {
    ApplyOutcome(vm, RunFetch(reply, parse, offset), encode)
  }

  /**
   The list a completed fetch publishes is the stable sort of the parsed rows:
   ordered by timestamp, the same entries, and equal timestamps in arrival order.
   */
  lemma FetchPublishesStableSort(vm: ViewModel, c: Cursor, parse: Parser, offset: OffsetAt, encode: Encoder)
    requires !MissingColumnAborts(c)
    ensures var r := LoadData(vm, Opened(c), parse, offset, encode);
            && r.Alive?
            && SortedByTimestamp(r.vm.entries)
            && StableReordering(ParseRows(parse, offset, c.rows), r.vm.entries)
  {
    SortIsStable(ParseRows(parse, offset, c.rows));
  }

  /**
   A null cursor, or a cursor none of whose rows parses, still completes: the
   entries and the cached list become empty.
   */
  lemma EmptyFetchClearsStore(vm: ViewModel, reply: ProviderReply, parse: Parser, offset: OffsetAt, encode: Encoder)
    requires reply.NullCursor?
             || (reply.Opened? && !MissingColumnAborts(reply.cursor)
                 && SkippedCount(parse, reply.cursor.rows) == |reply.cursor.rows|)
    ensures LoadData(vm, reply, parse, offset, encode).Alive?
    ensures LoadData(vm, reply, parse, offset, encode).vm.entries == []
    ensures LoadData(vm, reply, parse, offset, encode).vm.prefs[EntriesKey] == Text(encode([]))
  {
  }

  /**
   A fetch ended by an exception kills the process with the preference file as
   it was, so the next launch restores the list cached before the fetch.
   */
  lemma AbortedFetchKillsProcess(vm: ViewModel, reply: ProviderReply, parse: Parser, offset: OffsetAt, encode: Encoder)
    requires reply.QueryThrew? || (reply.Opened? && MissingColumnAborts(reply.cursor))
    ensures LoadData(vm, reply, parse, offset, encode) == Killed(vm.prefs)
  {
  }

  /** Whether the cursor has an `id` column does not change what a fetch produces. */
  lemma IdColumnIrrelevant(cols: set<string>, rows: seq<RawRow>, parse: Parser, offset: OffsetAt)
    ensures RunFetch(Opened(Cursor(cols + {IdColumn}, rows)), parse, offset)
            == RunFetch(Opened(Cursor(cols - {IdColumn}, rows)), parse, offset)
  {
  }

  /**
   Applies fetch completions in the order they land. The first aborted fetch
   ends the process, so nothing after it lands. The app is still alive at the
   end exactly when no fetch aborted.
   */
  function ApplyCompletions(vm: ViewModel, outcomes: seq<FetchOutcome>, encode: Encoder): (r: AppState)
    ensures r.Alive? <==> forall j :: 0 <= j < |outcomes| ==> outcomes[j].Completed?
    decreases |outcomes|
  {
    if |outcomes| == 0 then Alive(vm)
    else
      match ApplyOutcome(vm, outcomes[0], encode)
      case Killed(prefs) => Killed(prefs)
      case Alive(next) =>
        var r := ApplyCompletions(next, outcomes[1..], encode);
        assert forall j :: 1 <= j < |outcomes| ==> outcomes[j] == outcomes[1..][j - 1];
        r
  }

  /**
   Last completion wins: when every fetch completes, the entries and the cache
   are those of the fetch that landed last.
   */
  lemma {:induction false} LastCompletionWins(vm: ViewModel, outcomes: seq<FetchOutcome>, encode: Encoder)
    requires |outcomes| > 0
    requires forall j :: 0 <= j < |outcomes| ==> outcomes[j].Completed?
    ensures ApplyCompletions(vm, outcomes, encode).Alive?
    ensures ApplyCompletions(vm, outcomes, encode).vm.entries == outcomes[|outcomes| - 1].entries
    ensures EntriesKey in ApplyCompletions(vm, outcomes, encode).vm.prefs
    ensures ApplyCompletions(vm, outcomes, encode).vm.prefs[EntriesKey]
            == Text(encode(outcomes[|outcomes| - 1].entries))
    decreases |outcomes|
  {
    var next := UpdateEntries(vm, outcomes[0].entries, encode);
    if |outcomes| > 1 {
      LastCompletionWins(next, outcomes[1..], encode);
    }
  }

  /**
   An aborted fetch ends the process: what survives is the preference file as the
   last fetch that completed before it left it (or as it was, if none did), and
   the fetches landing after it never apply.
   */
  lemma {:induction false} AbortEndsCompletions(vm: ViewModel, outcomes: seq<FetchOutcome>, encode: Encoder, k: nat)
    requires k < |outcomes| && outcomes[k].Aborted?
    requires forall j :: 0 <= j < k ==> outcomes[j].Completed?
    ensures ApplyCompletions(vm, outcomes, encode).Killed?
    ensures ApplyCompletions(vm, outcomes, encode).prefs - {EntriesKey} == vm.prefs - {EntriesKey}
    ensures k == 0 ==> ApplyCompletions(vm, outcomes, encode).prefs == vm.prefs
    ensures k > 0 ==> EntriesKey in ApplyCompletions(vm, outcomes, encode).prefs
                      && ApplyCompletions(vm, outcomes, encode).prefs[EntriesKey]
                         == Text(encode(outcomes[k - 1].entries))
    decreases k
  {
    if k > 0 {
      var next := UpdateEntries(vm, outcomes[0].entries, encode);
      AbortEndsCompletions(next, outcomes[1..], encode, k - 1);
    }
  }

  /** A zone that is UTC all year. */
  function UtcZone(t: int): int
  {
    0
  }

  /** A parser that knows the two instants of the worked examples below and rejects everything else. */
  function ExampleParser(text: string): Option<int>
  {
    if text == "Mon, 01 Jan 2024 00:00:00 +0000" then Some(1704067200000)
    else if text == "Mon, 01 Jan 2024 01:00:00 +0000" then Some(1704070800000)
    else None
  }

  /** Two well-formed rows in a UTC zone give two entries at their UTC instants, in row order. */
  lemma TwoRowsInUtcZone(vm: ViewModel, encode: Encoder)
    ensures var rows := [RawRow(Some("Mon, 01 Jan 2024 00:00:00 +0000"), 17.05),
                         RawRow(Some("Mon, 01 Jan 2024 01:00:00 +0000"), 17.10)];
            LoadData(vm, Opened(Cursor({IdColumn, TimeColumn, RateColumn}, rows)), ExampleParser, UtcZone, encode).vm.entries
            == [Entry(1704067200000, 17.05), Entry(1704070800000, 17.10)]
  {
  }

  /** A malformed row between two good ones is dropped without leaving a gap, and the sort puts the rest in order. */
  lemma MalformedRowDropped(vm: ViewModel, encode: Encoder)
    ensures var rows := [RawRow(Some("Mon, 01 Jan 2024 01:00:00 +0000"), 17.10),
                         RawRow(Some("not a date"), 99.0),
                         RawRow(Some("Mon, 01 Jan 2024 00:00:00 +0000"), 17.05)];
            LoadData(vm, Opened(Cursor({TimeColumn, RateColumn}, rows)), ExampleParser, UtcZone, encode).vm.entries
            == [Entry(1704067200000, 17.05), Entry(1704070800000, 17.10)]
  {
  }
}
