/**
 * The home-screen widget's timeline provider
 * (SuperTimeWidget/TimelineProvider.swift). It reads three strings from the
 * app group's shared store, falling back to fixed defaults, and offers a
 * one-entry timeline that asks to be refreshed a second later. Dates are
 * integer milliseconds; the store is `None` when the app group's suite cannot
 * be opened.
 */
module WidgetTimeline {
  import opened Wrappers

  type Store = Option<map<string, string>>

  datatype SimpleEntry = SimpleEntry(date: int, timerValue: string, timerState: string, timerMode: string)

  /** `Timeline(entries:policy: .after(refreshAt))` */
  datatype Timeline = Timeline(entries: seq<SimpleEntry>, refreshAt: int)

  /** `sharedDefaults?.string(forKey: key) ?? fallback` */
  function Lookup(store: Store, key: string, fallback: string): (r: string)
    ensures store.Some? && key in store.value ==> r == store.value[key]
    ensures (store.None? || key !in store.value) ==> r == fallback
  {
    match store
    case None => fallback
    case Some(m) => if key in m then m[key] else fallback
  }

  /** The entry shown while the widget has not loaded. */
  function Placeholder(now: int): (e: SimpleEntry)
    ensures e.date == now && e.timerValue == "00:00:00" && e.timerState == "stopped" && e.timerMode == "stopwatch"
  {
    SimpleEntry(now, "00:00:00", "stopped", "stopwatch")
  }

  /** The entry handed to the completion for the widget gallery. */
  function GetSnapshot(now: int): (e: SimpleEntry)
    ensures e == Placeholder(now)
  {
    SimpleEntry(now, "00:00:00", "stopped", "stopwatch")
  }

  function GetCurrentTimerValue(store: Store): string {
    Lookup(store, "timerValue", "00:00:00")
  }

  function GetCurrentTimerState(store: Store): string {
    Lookup(store, "timerState", "stopped")
  }

  function GetCurrentTimerMode(store: Store): string {
    Lookup(store, "timerMode", "stopwatch")
  }

  /** The timeline handed to the completion: one entry now, refresh due one second later. */
  function GetTimeline(store: Store, now: int): (t: Timeline)
    ensures |t.entries| == 1 && t.entries[0].date == now
    ensures t.refreshAt == t.entries[0].date + 1000
  {
    var entry := SimpleEntry(now, GetCurrentTimerValue(store), GetCurrentTimerState(store), GetCurrentTimerMode(store));
    var entries := [] + [entry];
    Timeline(entries, now + 1000)
  }

  /** Each read yields the stored string under its key, or its default. */
  lemma ReadsSpec(store: Store)
    ensures GetCurrentTimerValue(store) ==
      if store.Some? && "timerValue" in store.value then store.value["timerValue"] else "00:00:00"
    ensures GetCurrentTimerState(store) ==
      if store.Some? && "timerState" in store.value then store.value["timerState"] else "stopped"
    ensures GetCurrentTimerMode(store) ==
      if store.Some? && "timerMode" in store.value then store.value["timerMode"] else "stopwatch"
  {
  }

  /** The timeline's one entry carries what the three reads return. */
  lemma TimelineCarriesStore(store: Store, now: int)
    ensures
      var e := GetTimeline(store, now).entries[0];
      e.timerValue == GetCurrentTimerValue(store) &&
      e.timerState == GetCurrentTimerState(store) &&
      e.timerMode == GetCurrentTimerMode(store)
  {
  }

  /** With nothing stored, or no store at all, the timeline shows exactly the placeholder. */
  lemma EmptyStoreShowsPlaceholder(store: Store, now: int)
    requires store.None? || store.value == map[]
    ensures GetTimeline(store, now).entries == [Placeholder(now)]
  {
  }
}
