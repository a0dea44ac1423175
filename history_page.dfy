/**
 * The history page: the list of past journal entries filtered by a free-text search
 * over the activities and an optional day, the results footer, and the weather icon
 * of each row.
 */
module HistoryPage {
  import opened Wrappers
  import opened Dates
  import opened JsString
  import opened Icons
  import WeatherConditions

  /** One row of the history table; `date` is already rendered as dd/MM/yyyy. */
  datatype Entry = Entry(
    id: int,
    date: string,
    activities: string,
    workers: int,
    equipment: int,
    weatherCondition: string)

  /** The search term occurs in the activities, ignoring case. */
  predicate MatchesSearch(e: Entry, searchTerm: string) {
    Contains(Lower(e.activities), Lower(searchTerm))
  }

  /** With a day chosen, the entry's date string is that day's dd/MM/yyyy rendering;
      with none, every entry matches. */
  predicate MatchesDate(e: Entry, selected: Option<CalendarDate>) {
    match selected
    case None => true
    case Some(d) => e.date == FormatDate(d)
  }

  /** The test `filteredEntries` applies. An empty term with no day chosen keeps
      every entry; a kept entry's activities are at least as long as the term. */
  predicate Kept(e: Entry, searchTerm: string, selected: Option<CalendarDate>)
    ensures searchTerm == "" && selected.None? ==> Kept(e, searchTerm, selected)
    ensures Kept(e, searchTerm, selected) ==> |searchTerm| <= |e.activities|
  {
    ContainsEmpty(Lower(e.activities));
    MatchesSearch(e, searchTerm) && MatchesDate(e, selected)
  }

  /** The entries shown: those kept, in their original order. */
  function FilterEntries(entries: seq<Entry>, searchTerm: string, selected: Option<CalendarDate>): (shown: seq<Entry>)
    ensures |shown| <= |entries|
    ensures forall e :: e in shown ==> e in entries && Kept(e, searchTerm, selected)
    ensures forall e :: e in entries && Kept(e, searchTerm, selected) ==> e in shown
    ensures forall e :: multiset(shown)[e] == (if Kept(e, searchTerm, selected) then multiset(entries)[e] else 0)
  {
    if entries == [] then []
    else
      assert entries == [entries[0]] + entries[1..];
      (if Kept(entries[0], searchTerm, selected) then [entries[0]] else [])
      + FilterEntries(entries[1..], searchTerm, selected)
  }

  /** `a` can be obtained from `b` by deleting elements, keeping the order of the rest. */
  predicate IsSubsequence<T(==)>(a: seq<T>, b: seq<T>) {
    if a == [] then true
    else if b == [] then false
    else if a[0] == b[0] then IsSubsequence(a[1..], b[1..])
    else IsSubsequence(a, b[1..])
  }

  /** The shown entries keep the order of the full list. */
  lemma {:induction false} FilterIsSubsequence(entries: seq<Entry>, searchTerm: string, selected: Option<CalendarDate>)
    ensures IsSubsequence(FilterEntries(entries, searchTerm, selected), entries)
  {
    if entries != [] {
      var rest := FilterEntries(entries[1..], searchTerm, selected);
      FilterIsSubsequence(entries[1..], searchTerm, selected);
      if !Kept(entries[0], searchTerm, selected) && rest != [] {
        assert rest[0] in rest;
        assert rest[0] != entries[0];
        assert FilterEntries(entries, searchTerm, selected) == rest;
      }
    }
  }

  /** With an empty search and no day chosen, every entry is shown. */
  lemma {:induction false} UnfilteredShowsAll(entries: seq<Entry>)
    ensures FilterEntries(entries, "", None) == entries
  {
    if entries != [] {
      UnfilteredShowsAll(entries[1..]);
      assert Kept(entries[0], "", None);
      assert FilterEntries(entries, "", None) == [entries[0]] + FilterEntries(entries[1..], "", None);
    }
  }

  /** Search terms that differ only in letter case show the same entries. */
  lemma {:induction false} SearchIgnoresCase(entries: seq<Entry>, a: string, b: string, selected: Option<CalendarDate>)
    requires Lower(a) == Lower(b)
    ensures FilterEntries(entries, a, selected) == FilterEntries(entries, b, selected)
  {
    if entries != [] {
      SearchIgnoresCase(entries[1..], a, b, selected);
    }
  }

  /** Only the activities and the date of an entry decide whether it is shown. */
  lemma KeptReadsActivitiesAndDate(e: Entry, f: Entry, searchTerm: string, selected: Option<CalendarDate>)
    requires e.activities == f.activities && e.date == f.date
    ensures Kept(e, searchTerm, selected) == Kept(f, searchTerm, selected)
  {
  }

  /** An entry recorded on day d0 matches a chosen day exactly when it is d0. */
  lemma DateFilterSelectsTheDay(e: Entry, d0: CalendarDate, d: CalendarDate)
    requires IsCalendarDay(d0) && IsCalendarDay(d)
    requires e.date == FormatDate(d0)
    ensures MatchesDate(e, Some(d)) <==> d == d0
  {
    if MatchesDate(e, Some(d)) {
      FormatDateInjective(d, d0);
    }
  }

  /** The "Precedente" and "Successivo" buttons are disabled when nothing is shown. */
  predicate NavigationDisabled(shown: seq<Entry>) {
    |shown| == 0
  }

  /** Navigation is disabled exactly when no entry passes the filter. */
  lemma NavigationDisabledIff(entries: seq<Entry>, searchTerm: string, selected: Option<CalendarDate>)
    ensures NavigationDisabled(FilterEntries(entries, searchTerm, selected))
        <==> forall e :: e in entries ==> !Kept(e, searchTerm, selected)
  {
    var shown := FilterEntries(entries, searchTerm, selected);
    if shown != [] {
      assert shown[0] in shown;
    }
  }

  /** The icon of a history row's condition, ignoring case; unknown conditions get the
      sun-behind-cloud icon. This page knows four conditions. */
  function WeatherIcon(condition: string): (icon: string)
    ensures icon == Sunny <==> Lower(condition) == "soleggiato"
    ensures icon == Cloudy <==> Lower(condition) == "nuvoloso"
    ensures icon == LightRain <==> Lower(condition) == "pioggia leggera"
    ensures icon == HeavyRain <==> Lower(condition) == "pioggia forte"
    ensures icon == SunBehindCloud
        <==> Lower(condition) !in {"soleggiato", "nuvoloso", "pioggia leggera", "pioggia forte"}
  {
    match Lower(condition)
    case "soleggiato" => Sunny
    case "nuvoloso" => Cloudy
    case "pioggia leggera" => LightRain
    case "pioggia forte" => HeavyRain
    case _ => SunBehindCloud
  }

  /** The history page and the weather table agree on every condition except snow and
      thunderstorm, which only the weather table recognises. */
  lemma WeatherIconsAgree(condition: string)
    ensures Lower(condition) != "neve" && Lower(condition) != "temporale"
        ==> WeatherIcon(condition) == WeatherConditions.WeatherIcon(condition)
    ensures Lower(condition) == "neve" || Lower(condition) == "temporale"
        ==> WeatherIcon(condition) == SunBehindCloud != WeatherConditions.WeatherIcon(condition)
  {
  }
}
