/**
 * The history drawer: the two tabs and their counts, the relative age shown
 * under each entry, and the placeholder for an entry without content.
 */
module HistorySidebar {
  import opened Strings
  import opened Seqs
  import opened Types

  datatype Tab = AllTab | FavoritesTab

  function IsFavorite(item: HistoryItem): bool
  {
    item.isFavorite
  }

  /** `filteredHistory`: the whole history on the first tab, exactly the favourites, in order, on the second. */
  function FilteredHistory(tab: Tab, history: seq<HistoryItem>): (r: seq<HistoryItem>)
    ensures tab == AllTab ==> r == history
    ensures tab == FavoritesTab ==> forall item :: item in r <==> item in history && item.isFavorite
    ensures SubsequenceOf(r, history)
  {
    SubsequenceOfSelf(history);
    if tab == AllTab then history else Filter(history, IsFavorite)
  }

  /** The number of favourite entries, counted one entry at a time. */
  function FavoriteCount(history: seq<HistoryItem>): nat
  {
    if history == [] then 0 else (if history[0].isFavorite then 1 else 0) + FavoriteCount(history[1..])
  }

  /**
   * The two tab labels: the first counts every entry, the second counts the
   * favourites, which is exactly how many entries the second tab lists.
   */
  lemma {:induction false} TabCounts(history: seq<HistoryItem>)
    ensures |FilteredHistory(AllTab, history)| == |history|
    ensures |FilteredHistory(FavoritesTab, history)| == FavoriteCount(history) <= |history|
  {
    if history != [] {
      TabCounts(history[1..]);
      assert history == [history[0]] + history[1..];
      FilterAppend([history[0]], history[1..], IsFavorite);
    }
  }

  // ---------------------------------------------------------------------------
  // Relative age

  const MinuteMs: int := 60000
  const HourMs: int := 60 * MinuteMs
  const DayMs: int := 24 * HourMs

  /** How long ago an entry was made, in the unit `formatDate` picks; `Older` is shown as a calendar date. */
  datatype Age = JustNow | MinutesAgo(minutes: nat) | HoursAgo(hours: nat) | DaysAgo(days: nat) | Older

  /**
   * `formatDate` up to its calendar branch: whole minutes elapsed (rounded
   * down, as `Math.floor` does), then whole hours, then whole days. A
   * timestamp in the future counts as just now. Each unit is the largest
   * whole number of that unit that fits in the elapsed time.
   */
  function FormatAge(now: int, timestamp: int): (r: Age)
    ensures r == JustNow <==> now - timestamp < MinuteMs
    ensures r.MinutesAgo? ==>
      1 <= r.minutes < 60 && r.minutes * MinuteMs <= now - timestamp < (r.minutes + 1) * MinuteMs
    ensures r.HoursAgo? ==>
      1 <= r.hours < 24 && r.hours * HourMs <= now - timestamp < (r.hours + 1) * HourMs
    ensures r.DaysAgo? ==>
      1 <= r.days < 7 && r.days * DayMs <= now - timestamp < (r.days + 1) * DayMs
    ensures r == Older <==> now - timestamp >= 7 * DayMs
  {
    var minutes := (now - timestamp) / MinuteMs;
    if minutes < 1 then JustNow
    else if minutes < 60 then MinutesAgo(minutes)
    else
      var hours := minutes / 60;
      if hours < 24 then HoursAgo(hours)
      else
        var days := hours / 24;
        if days < 7 then DaysAgo(days) else Older
  }

  const JustNowText: string := "เมื่อสักครู่"
  const MinutesSuffix: string := " นาทีที่แล้ว"
  const HoursSuffix: string := " ชั่วโมงที่แล้ว"
  const DaysSuffix: string := " วันที่แล้ว"

  /** The label under an entry made `age` ago; the calendar date of an older entry is not part of this model. */
  function AgeText(age: Age): (r: string)
    requires age != Older
    ensures age == JustNow ==> r == JustNowText
    ensures age.MinutesAgo? ==> CountedIn(r, age.minutes, MinutesSuffix)
    ensures age.HoursAgo? ==> CountedIn(r, age.hours, HoursSuffix)
    ensures age.DaysAgo? ==> CountedIn(r, age.days, DaysSuffix)
  {
    match age {
      case JustNow => JustNowText
      case MinutesAgo(m) => CountText(m, MinutesSuffix)
      case HoursAgo(h) => CountText(h, HoursSuffix)
      case DaysAgo(d) => CountText(d, DaysSuffix)
    }
  }

  /**
   * `text` is a number in decimal followed by `suffix`, and the number is `n`;
   * like a template literal, the number has no leading zero unless it is 0.
   */
  predicate CountedIn(text: string, n: nat, suffix: string)
  {
    EndsWith(text, suffix) && |text| > |suffix| &&
    (text[0] != '0' || |text| == |suffix| + 1) &&
    (forall i :: 0 <= i < |text| - |suffix| ==> IsDigit(text[i])) &&
    DecimalValue(text[..|text| - |suffix|]) == n
  }

  /** A count in decimal followed by its unit; the count can be read back from the text. */
  function CountText(n: nat, suffix: string): (r: string)
    ensures CountedIn(r, n, suffix)
  {
    var digits := NatToString(n);
    NatToStringRoundTrip(n);
    EndsWithAppend(digits, suffix);
    assert (digits + suffix)[..|digits|] == digits;
    digits + suffix
  }

  // ---------------------------------------------------------------------------
  // Entry content

  const NoContentText: string := "ไม่มีข้อมูล"
  const EmptyListText: string := "ยังไม่มีประวัติ"

  /** `item.contentInput || 'ไม่มีข้อมูล'`: the recorded content, or the placeholder when it is empty; never blank on screen. */
  function DisplayContent(item: HistoryItem): (r: string)
    ensures r != ""
    ensures item.contentInput != "" ==> r == item.contentInput
  {
    if item.contentInput == "" then NoContentText else item.contentInput
  }

  /** What the list area shows: the empty-list notice, or the entries of the tab in order. */
  datatype ListView = EmptyNotice(text: string) | Entries(items: seq<HistoryItem>)

  function View(tab: Tab, history: seq<HistoryItem>): (r: ListView)
    ensures r.EmptyNotice? <==> FilteredHistory(tab, history) == []
    ensures r.Entries? ==> r.items == FilteredHistory(tab, history)
    ensures r.EmptyNotice? ==> r.text == EmptyListText
  {
    var shown := FilteredHistory(tab, history);
    if |shown| == 0 then EmptyNotice(EmptyListText) else Entries(shown)
  }

  /** The favourites tab shows the empty notice exactly when no entry is a favourite. */
  lemma FavoritesEmptyIffNone(history: seq<HistoryItem>)
    ensures View(FavoritesTab, history).EmptyNotice? <==> forall item :: item in history ==> !item.isFavorite
  {
    var shown := FilteredHistory(FavoritesTab, history);
    if shown != [] {
      assert shown[0] in shown;
    }
  }
}
