/**
 The parts of the chart screen that feed the ViewModel: the selection it starts
 from, the load it issues at startup, the "Cargar Datos" handler that puts an
 inverted range in order, persists it and requests UTC values, the currency
 pick, and the choice between the "no data" message and the chart.

 The selection's dates are epoch instants: the defaults come from the clock and
 the date/time pickers return `Calendar.timeInMillis`. The screen nevertheless
 treats them as local millis and passes them through `localToUtc`, which moves
 the requested window by the zone's offset. `StartupRequest` and
 `OnLoadClicked` model that as written; `CorrectedStartupRequest` and
 `CorrectedOnLoadClicked` request the chosen instants unchanged.
 */
module Screen {
  import opened TimeZone
  import opened Entries
  import opened Store

  /** The screen's selection; the dates are epoch instants (UTC millis). */
  datatype Selection = Selection(currency: string, startMillis: int, endMillis: int)

  /** The arguments of one loadDataFromContentProvider call, dates in UTC millis. */
  datatype LoadRequest = LoadRequest(currency: string, startUtc: int, endUtc: int)

  /** What the load handler leaves behind: the screen's selection, the ViewModel, and the load it issued. */
  datatype Handled = Handled(selection: Selection, vm: ViewModel, request: LoadRequest)

  /** A chart point: x is the entry's timestamp, y its rate. */
  datatype Point = Point(x: int, y: real)

  /** Either the "no data" message or a line chart over the given points. */
  datatype View = NoData | Chart(points: seq<Point>)

  /** The selection the screen starts with: the persisted currency and dates. */
  function InitialSelection(vm: ViewModel): (sel: Selection)
    requires WellTyped(vm.prefs)
    ensures CurrencyKey in vm.prefs ==> vm.prefs[CurrencyKey] == Text(sel.currency)
    ensures CurrencyKey !in vm.prefs ==> sel.currency == DefaultCurrency
    ensures sel.startMillis == GetPersistedStartDate(vm) && sel.endMillis == GetPersistedEndDate(vm)
    ensures DatesOrdered(vm) ==> sel.startMillis <= sel.endMillis
  {
    Selection(GetPersistedCurrency(vm), GetPersistedStartDate(vm), GetPersistedEndDate(vm))
  }

  /**
   The load issued when the screen first appears, as written: each date is
   converted by subtracting the offset read at it, the same conversion as
   LocalToUtc, although the dates already are instants. The dates are not
   reordered here.
   */
  function StartupRequest(sel: Selection, offset: OffsetAt): (r: LoadRequest)
    ensures r.currency == sel.currency
    ensures r.startUtc == LocalToUtc(offset, sel.startMillis)
    ensures r.endUtc == LocalToUtc(offset, sel.endMillis)
  {
    LoadRequest(sel.currency,
                sel.startMillis - offset(sel.startMillis),
                sel.endMillis - offset(sel.endMillis))
  }

  /** The startup load over an ordered persisted range asks for an ordered UTC range when the offset agrees at both ends. */
  lemma StartupRangeOrdered(vm: ViewModel, offset: OffsetAt)
    requires WellTyped(vm.prefs)
    requires DatesOrdered(vm)
    requires offset(GetPersistedStartDate(vm)) == offset(GetPersistedEndDate(vm))
    ensures var r := StartupRequest(InitialSelection(vm), offset);
            r.startUtc <= r.endUtc
  {
    LocalToUtcMonotone(offset, GetPersistedStartDate(vm), GetPersistedEndDate(vm));
  }

  /** Swaps the dates when the start is after the end; the result is in order and holds the same two dates. */
  function NormaliseRange(sel: Selection): (r: Selection)
    ensures r.startMillis <= r.endMillis
    ensures r.currency == sel.currency
    ensures (r.startMillis == sel.startMillis && r.endMillis == sel.endMillis)
            || (r.startMillis == sel.endMillis && r.endMillis == sel.startMillis)
    ensures sel.startMillis <= sel.endMillis ==> r == sel
  {
    if sel.startMillis > sel.endMillis then sel.(startMillis := sel.endMillis, endMillis := sel.startMillis)
    else sel
  }

  /**
   The "Cargar Datos" handler, as written: orders the range, persists the dates,
   and requests LocalToUtc of those same dates for the selected currency. The
   request's range is ordered when the offset agrees at both ends.
   */
  function OnLoadClicked(sel: Selection, vm: ViewModel, offset: OffsetAt): (h: Handled)
    ensures h.selection.startMillis <= h.selection.endMillis
    ensures {h.selection.startMillis, h.selection.endMillis} == {sel.startMillis, sel.endMillis}
    ensures h.selection.currency == sel.currency
    ensures HoldsLong(h.vm.prefs, StartDateKey) && GetPersistedStartDate(h.vm) == h.selection.startMillis
    ensures HoldsLong(h.vm.prefs, EndDateKey) && GetPersistedEndDate(h.vm) == h.selection.endMillis
    ensures h.vm.entries == vm.entries
    ensures h.request.currency == sel.currency
    ensures h.request.startUtc == LocalToUtc(offset, h.selection.startMillis)
    ensures h.request.endUtc == LocalToUtc(offset, h.selection.endMillis)
    ensures offset(sel.startMillis) == offset(sel.endMillis) ==> h.request.startUtc <= h.request.endUtc
    ensures WellTyped(vm.prefs) ==> WellTyped(h.vm.prefs) && DatesOrdered(h.vm)
  {
    var ordered := NormaliseRange(sel);
    var saved := PersistDates(vm, ordered.startMillis, ordered.endMillis);
    Handled(ordered, saved,
            LoadRequest(ordered.currency,
                        LocalToUtc(offset, ordered.startMillis),
                        LocalToUtc(offset, ordered.endMillis)))
  }

  /** Picking a currency from the dropdown selects it and persists it; dates and entries stay. */
  function OnCurrencyPicked(sel: Selection, vm: ViewModel, currency: string): (r: (Selection, ViewModel))
    ensures r.0 == sel.(currency := currency)
    ensures HoldsText(r.1.prefs, CurrencyKey) && GetPersistedCurrency(r.1) == currency
    ensures r.1.entries == vm.entries
    ensures r.1.prefs - {CurrencyKey} == vm.prefs - {CurrencyKey}
  {
    (sel.(currency := currency), PersistCurrency(vm, currency))
  }

  /**
   A currency picked and a range loaded survive a relaunch: the screen of the next
   launch starts from exactly the selection the handlers left behind.
   */
  lemma SelectionSurvivesRelaunch(sel: Selection, vm: ViewModel, currency: string,
                                  offset: OffsetAt, now: int, decode: Decoder)
    requires WellTyped(vm.prefs)
    ensures var picked := OnCurrencyPicked(sel, vm, currency);
            var h := OnLoadClicked(picked.0, picked.1, offset);
            var next := Init(h.vm.prefs, now, decode);
            WellTyped(h.vm.prefs)
            && (next.Success? ==> WellTyped(next.value.prefs) && InitialSelection(next.value) == h.selection)
  {
  }

  /** The "no data" message exactly when there are no entries; otherwise one point per entry, in order. */
  function ChartView(entries: seq<Entry>): (v: View)
    ensures v.NoData? <==> |entries| == 0
    ensures v.Chart? ==> |v.points| == |entries|
    ensures v.Chart? ==> forall i :: 0 <= i < |entries| ==>
                           v.points[i] == Point(entries[i].timestamp, entries[i].rate)
  {
    var points := seq(|entries|, i requires 0 <= i < |entries| => Point(entries[i].timestamp, entries[i].rate));
    if |points| == 0 then NoData else Chart(points)
  }

  /** A zone six hours behind UTC all year (Mexico City since 2022). */
  function UtcMinusSixZone(t: int): int
  {
    -21600000
  }

  /**
   As written, the first launch in a zone six hours behind UTC asks the provider
   for the week ending six hours after `now`, not the week ending at `now`.
   */
  lemma FirstLaunchRequestDisplaced(now: int, decode: Decoder)
    ensures Init(map[], now, decode).Success?
    ensures var r := StartupRequest(InitialSelection(Init(map[], now, decode).value), UtcMinusSixZone);
            r.startUtc == now - WeekMillis + 21600000 && r.endUtc == now + 21600000
  {
  }

  /** The startup load requesting the persisted instants themselves. */
  function CorrectedStartupRequest(vm: ViewModel): (r: LoadRequest)
    requires WellTyped(vm.prefs)
    ensures r.currency == GetPersistedCurrency(vm)
    ensures r.startUtc == GetPersistedStartDate(vm) && r.endUtc == GetPersistedEndDate(vm)
    ensures DatesOrdered(vm) ==> r.startUtc <= r.endUtc
  {
    var sel := InitialSelection(vm);
    LoadRequest(sel.currency, sel.startMillis, sel.endMillis)
  }

  /** Corrected, the first launch asks for exactly the week ending at `now`, in every zone. */
  lemma FirstLaunchRequestsLastWeek(now: int, decode: Decoder)
    ensures Init(map[], now, decode).Success?
    ensures var r := CorrectedStartupRequest(Init(map[], now, decode).value);
            r == LoadRequest(DefaultCurrency, now - WeekMillis, now)
  {
  }

  /**
   The "Cargar Datos" handler requesting the chosen instants: the same ordering
   and persistence as OnLoadClicked, and a request window that is exactly the
   persisted range, ordered whatever the zone.
   */
  function CorrectedOnLoadClicked(sel: Selection, vm: ViewModel): (h: Handled)
    ensures h.selection.startMillis <= h.selection.endMillis
    ensures {h.selection.startMillis, h.selection.endMillis} == {sel.startMillis, sel.endMillis}
    ensures h.selection.currency == sel.currency
    ensures HoldsLong(h.vm.prefs, StartDateKey) && GetPersistedStartDate(h.vm) == h.request.startUtc
    ensures HoldsLong(h.vm.prefs, EndDateKey) && GetPersistedEndDate(h.vm) == h.request.endUtc
    ensures h.vm.entries == vm.entries
    ensures h.request == LoadRequest(sel.currency, h.selection.startMillis, h.selection.endMillis)
    ensures h.request.startUtc <= h.request.endUtc
  {
    var ordered := NormaliseRange(sel);
    Handled(ordered,
            PersistDates(vm, ordered.startMillis, ordered.endMillis),
            LoadRequest(ordered.currency, ordered.startMillis, ordered.endMillis))
  }

  /**
   As written, the handler's request is the corrected one moved by the zone
   offset: in a zone six hours behind UTC both ends fall six hours later.
   */
  lemma HandlerWindowDisplaced(sel: Selection, vm: ViewModel)
    ensures var written := OnLoadClicked(sel, vm, UtcMinusSixZone).request;
            var intended := CorrectedOnLoadClicked(sel, vm).request;
            written.startUtc == intended.startUtc + 21600000
            && written.endUtc == intended.endUtc + 21600000
  {
  }
}
