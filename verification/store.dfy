/**
 The ViewModel's state: the observable entry list, the key/value preference file
 that holds the cache and the user's selection, and the two date fields read from
 that file when the ViewModel is built. Every operation is a pure transition from
 one state to the next; the JSON codec is injected as an encoder/decoder pair.
 */
module Store {
  import opened Wrappers
  import opened Entries

  const EntriesKey := "entries"
  const CurrencyKey := "selected_currency"
  const StartDateKey := "start_date_millis"
  const EndDateKey := "end_date_millis"

  /** Currency reported when none was ever chosen. */
  const DefaultCurrency := "USD"

  /** The default look-back window, seven days in milliseconds (7 * 24 * 60 * 60 * 1000). */
  const WeekMillis := 604800000

  /** A preference value: written with putString or with putLong. */
  datatype PrefValue = Text(text: string) | Long(millis: int)

  type Prefs = map<string, PrefValue>

  /** What decoding the cached JSON yields: a list, a JSON null, or a syntax error (thrown). */
  datatype Decoded = Decoded(list: seq<Entry>) | JsonNull | Malformed

  type Encoder = seq<Entry> -> string
  type Decoder = string -> Decoded

  /** Why building the ViewModel failed: the cached JSON could not be read. */
  datatype InitError = MalformedCache

  /**
   `entries` is the observable list; `startDateMillis`/`endDateMillis` are the
   fields initialised once from the preference file and used as the defaults of
   the date getters.
   */
  datatype ViewModel = ViewModel(entries: seq<Entry>, prefs: Prefs, startDateMillis: int, endDateMillis: int)

  /** `key` is absent or was written with putString; otherwise getString throws. */
  predicate HoldsText(prefs: Prefs, key: string)
  {
    key !in prefs || prefs[key].Text?
  }

  /** `key` is absent or was written with putLong; otherwise getLong throws. */
  predicate HoldsLong(prefs: Prefs, key: string)
  {
    key !in prefs || prefs[key].Long?
  }

  /** Every key the ViewModel reads holds the kind of value it reads it as. */
  predicate WellTyped(prefs: Prefs)
  {
    && HoldsText(prefs, EntriesKey)
    && HoldsText(prefs, CurrencyKey)
    && HoldsLong(prefs, StartDateKey)
    && HoldsLong(prefs, EndDateKey)
  }

  /** getLong(key, default). */
  function GetLong(prefs: Prefs, key: string, default: int): int
    requires HoldsLong(prefs, key)
  {
    if key in prefs then prefs[key].millis else default
  }

  /** getString(key, null). */
  function GetText(prefs: Prefs, key: string): Option<string>
    requires HoldsText(prefs, key)
  {
    if key in prefs then Some(prefs[key].text) else None
  }

  /** The stored currency code, or "USD" when none is stored. */
  function GetPersistedCurrency(vm: ViewModel): (c: string)
    requires HoldsText(vm.prefs, CurrencyKey)
    ensures CurrencyKey in vm.prefs ==> vm.prefs[CurrencyKey] == Text(c)
    ensures CurrencyKey !in vm.prefs ==> c == DefaultCurrency
  {
    match GetText(vm.prefs, CurrencyKey)
    case None => DefaultCurrency
    case Some(c) => c
  }

  /** Stores the currency code; nothing else changes. */
  function PersistCurrency(vm: ViewModel, currency: string): (r: ViewModel)
    ensures HoldsText(r.prefs, CurrencyKey) && GetPersistedCurrency(r) == currency
    ensures r.prefs - {CurrencyKey} == vm.prefs - {CurrencyKey}
    ensures r.entries == vm.entries
    ensures r.startDateMillis == vm.startDateMillis && r.endDateMillis == vm.endDateMillis
    ensures WellTyped(vm.prefs) ==> WellTyped(r.prefs)
  {
    vm.(prefs := vm.prefs[CurrencyKey := Text(currency)])
  }

  /** The stored start date, or the start field read when the ViewModel was built. */
  function GetPersistedStartDate(vm: ViewModel): (d: int)
    requires HoldsLong(vm.prefs, StartDateKey)
    ensures StartDateKey in vm.prefs ==> vm.prefs[StartDateKey] == Long(d)
    ensures StartDateKey !in vm.prefs ==> d == vm.startDateMillis
  {
    GetLong(vm.prefs, StartDateKey, vm.startDateMillis)
  }

  /** The stored end date, or the end field read when the ViewModel was built. */
  function GetPersistedEndDate(vm: ViewModel): (d: int)
    requires HoldsLong(vm.prefs, EndDateKey)
    ensures EndDateKey in vm.prefs ==> vm.prefs[EndDateKey] == Long(d)
    ensures EndDateKey !in vm.prefs ==> d == vm.endDateMillis
  {
    GetLong(vm.prefs, EndDateKey, vm.endDateMillis)
  }

  /** Stores both dates; the getters then answer them, and nothing else changes. */
  function PersistDates(vm: ViewModel, start: int, end: int): (r: ViewModel)
    ensures HoldsLong(r.prefs, StartDateKey) && GetPersistedStartDate(r) == start
    ensures HoldsLong(r.prefs, EndDateKey) && GetPersistedEndDate(r) == end
    ensures r.prefs - {StartDateKey, EndDateKey} == vm.prefs - {StartDateKey, EndDateKey}
    ensures r.entries == vm.entries
    ensures r.startDateMillis == vm.startDateMillis && r.endDateMillis == vm.endDateMillis
    ensures WellTyped(vm.prefs) ==> WellTyped(r.prefs)
  {
    vm.(prefs := vm.prefs[StartDateKey := Long(start)][EndDateKey := Long(end)])
  }

  /** Writes the encoded list under the cache key; every other key keeps its value. */
  function CacheData(prefs: Prefs, data: seq<Entry>, encode: Encoder): (r: Prefs)
    ensures EntriesKey in r && r[EntriesKey] == Text(encode(data))
    ensures r - {EntriesKey} == prefs - {EntriesKey}
    ensures WellTyped(prefs) ==> WellTyped(r)
  {
    prefs[EntriesKey := Text(encode(data))]
  }

  /**
   Replaces the observable list wholesale and caches it. Afterwards the entries are
   exactly `newEntries`, the cache key holds their encoding, and no other key or
   field changes.
   */
  function UpdateEntries(vm: ViewModel, newEntries: seq<Entry>, encode: Encoder): (r: ViewModel)
    ensures r.entries == newEntries
    ensures EntriesKey in r.prefs && r.prefs[EntriesKey] == Text(encode(newEntries))
    ensures r.prefs - {EntriesKey} == vm.prefs - {EntriesKey}
    ensures r.startDateMillis == vm.startDateMillis && r.endDateMillis == vm.endDateMillis
    ensures WellTyped(vm.prefs) ==> WellTyped(r.prefs)
  {
    vm.(entries := newEntries, prefs := CacheData(vm.prefs, newEntries, encode))
  }

  /**
   Seeds the list from the cache: left as it is when the key is absent or holds
   JSON null, replaced by the decoded list otherwise; malformed JSON escapes as
   a failure.
   */
  function LoadCachedData(vm: ViewModel, decode: Decoder): (r: Result<ViewModel, InitError>)
    requires HoldsText(vm.prefs, EntriesKey)
    ensures r.Failure? <==> EntriesKey in vm.prefs && decode(vm.prefs[EntriesKey].text).Malformed?
    ensures r.Success? ==> r.value.prefs == vm.prefs
    ensures r.Success? ==> r.value.startDateMillis == vm.startDateMillis && r.value.endDateMillis == vm.endDateMillis
    ensures r.Success? && EntriesKey in vm.prefs && decode(vm.prefs[EntriesKey].text).Decoded?
            ==> r.value.entries == decode(vm.prefs[EntriesKey].text).list
    ensures r.Success? && (EntriesKey !in vm.prefs || decode(vm.prefs[EntriesKey].text).JsonNull?)
            ==> r.value.entries == vm.entries
  {
    match GetText(vm.prefs, EntriesKey)
    case None => Success(vm)
    case Some(json) =>
      match decode(json)
      case Decoded(list) => Success(vm.(entries := list))
      case JsonNull => Success(vm)
      case Malformed => Failure(MalformedCache)
  }

  /**
   Builds the ViewModel over a preference file at instant `now`: the date fields
   take the stored dates or default to the last seven days, the list starts empty
   and is then seeded from the cache.
   */
  function Init(prefs: Prefs, now: int, decode: Decoder): (r: Result<ViewModel, InitError>)
    requires HoldsText(prefs, EntriesKey)
    requires HoldsLong(prefs, StartDateKey) && HoldsLong(prefs, EndDateKey)
    ensures r.Failure? <==> EntriesKey in prefs && decode(prefs[EntriesKey].text).Malformed?
    ensures r.Success? ==> r.value.prefs == prefs
    ensures r.Success? && EntriesKey in prefs && decode(prefs[EntriesKey].text).Decoded?
            ==> r.value.entries == decode(prefs[EntriesKey].text).list
    ensures r.Success? && (EntriesKey !in prefs || decode(prefs[EntriesKey].text).JsonNull?)
            ==> r.value.entries == []
    ensures r.Success? && StartDateKey in prefs ==> r.value.startDateMillis == prefs[StartDateKey].millis
    ensures r.Success? && StartDateKey !in prefs ==> r.value.startDateMillis == now - WeekMillis
    ensures r.Success? && EndDateKey in prefs ==> r.value.endDateMillis == prefs[EndDateKey].millis
    ensures r.Success? && EndDateKey !in prefs ==> r.value.endDateMillis == now
  {
    var vm := ViewModel([],
                        prefs,
                        GetLong(prefs, StartDateKey, now - WeekMillis),
                        GetLong(prefs, EndDateKey, now));
    LoadCachedData(vm, decode)
  }

  /** With no cache stored, or a cache holding JSON null, the list starts empty. */
  lemma InitWithoutCacheIsEmpty(prefs: Prefs, now: int, decode: Decoder)
    requires WellTyped(prefs)
    requires EntriesKey !in prefs || decode(prefs[EntriesKey].text).JsonNull?
    ensures Init(prefs, now, decode).Success?
    ensures Init(prefs, now, decode).value.entries == []
  {
  }

  /**
   A first launch over an empty preference file: no entries, currency "USD", and a
   date range of exactly seven days ending at `now`.
   */
  lemma FirstLaunchDefaults(now: int, decode: Decoder)
    ensures WellTyped(map[])
    ensures Init(map[], now, decode).Success?
    ensures var vm := Init(map[], now, decode).value;
            && vm.entries == []
            && GetPersistedCurrency(vm) == DefaultCurrency
            && GetPersistedStartDate(vm) == now - WeekMillis
            && GetPersistedEndDate(vm) == now
            && GetPersistedStartDate(vm) <= GetPersistedEndDate(vm)
  {
  }

  /**
   What UpdateEntries caches is what the next launch restores, given a codec that
   decodes the encoding of this list back to the list.
   */
  lemma CacheRoundTrip(vm: ViewModel, xs: seq<Entry>, encode: Encoder, decode: Decoder, now: int)
    requires WellTyped(vm.prefs)
    requires decode(encode(xs)) == Decoded(xs)
    ensures Init(UpdateEntries(vm, xs, encode).prefs, now, decode).Success?
    ensures Init(UpdateEntries(vm, xs, encode).prefs, now, decode).value.entries == xs
  {
  }

  /** The persisted date range is in order. */
  predicate DatesOrdered(vm: ViewModel)
    requires WellTyped(vm.prefs)
  {
    GetPersistedStartDate(vm) <= GetPersistedEndDate(vm)
  }

  /**
   A launch over a file whose dates are both stored in order, or both absent,
   starts with an ordered persisted range.
   */
  lemma InitDatesOrdered(prefs: Prefs, now: int, decode: Decoder)
    requires WellTyped(prefs)
    requires (StartDateKey in prefs <==> EndDateKey in prefs)
    requires StartDateKey in prefs ==> prefs[StartDateKey].millis <= prefs[EndDateKey].millis
    requires Init(prefs, now, decode).Success?
    ensures DatesOrdered(Init(prefs, now, decode).value)
  {
  }
}
