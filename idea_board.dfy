/**
 * The idea board of app/components/IdeaBoard.tsx: the summary of the idea
 * list, the per-day histogram of recent ideas, the handlers that pass a
 * trimmed, non-empty text to the add and edit callbacks, and the width of a
 * histogram bar.
 *
 * The browser's date functions stay abstract (`Locale`): what
 * `toLocaleString()` and `toLocaleDateString()` give for a `createdAt`
 * string (nothing when the date does not parse), and the timestamp that
 * `new Date(label).getTime()` gives for a day label.
 */
module IdeaBoard {
  import opened Wrappers
  import opened Text
  import opened Sequences

  datatype Idea = Idea(text: string, createdAt: string)

  datatype Locale = Locale(
    localeString: string -> Option<string>,
    localeDateString: string -> Option<string>,
    labelTime: string -> int)

  // ---------------------------------------------------------------------------
  // Summary

  datatype Summary = Summary(total: nat, latestText: string, latestDate: string)

  /**
   * `ideaSummary`: the number of ideas and the text and date of the last
   * one; the date is the raw `createdAt` string when it does not parse.
   */
  function IdeaSummary(ideas: seq<Idea>, locale: Locale): (r: Summary)
    ensures r.total == |ideas|
    ensures ideas == [] ==> r.latestText == "" && r.latestDate == ""
    ensures ideas != [] ==> r.latestText == ideas[|ideas| - 1].text
    ensures ideas != [] && locale.localeString(ideas[|ideas| - 1].createdAt).None? ==>
      r.latestDate == ideas[|ideas| - 1].createdAt
    ensures ideas != [] && locale.localeString(ideas[|ideas| - 1].createdAt).Some? ==>
      r.latestDate == locale.localeString(ideas[|ideas| - 1].createdAt).value
  {
    if |ideas| == 0 then Summary(0, "", "")
    else
      var latest := ideas[|ideas| - 1];
      Summary(|ideas|, latest.text, match locale.localeString(latest.createdAt)
        case None => latest.createdAt
        case Some(formatted) => formatted)
  }

  // ---------------------------------------------------------------------------
  // Counting ideas per day

  const UnknownDate := "Unknown date"

  /** A histogram entry: a day label and how many ideas carry it. */
  type Entry = (string, nat)

  /** The bucket an idea falls in: its locale date, or `Unknown date` when `createdAt` does not parse. */
  function DayLabel(idea: Idea, locale: Locale): string {
    match locale.localeDateString(idea.createdAt)
    case None => UnknownDate
    case Some(day) => day
  }

  /** How many ideas carry the day label `key`. */
  function CountLabel(ideas: seq<Idea>, key: string, locale: Locale): nat {
    if ideas == [] then 0
    else CountLabel(ideas[..|ideas| - 1], key, locale) + (if DayLabel(ideas[|ideas| - 1], locale) == key then 1 else 0)
  }

  /** The labels of a list of entries, in order. */
  function Keys(entries: seq<Entry>): (r: seq<string>)
    ensures |r| == |entries|
    ensures forall i :: 0 <= i < |entries| ==> r[i] == entries[i].0
  {
    if entries == [] then [] else [entries[0].0] + Keys(entries[1..])
  }

  function SumCounts(entries: seq<Entry>): nat {
    if entries == [] then 0 else entries[0].1 + SumCounts(entries[1..])
  }

  /*
   * A JavaScript `Map` keeps its keys in insertion order; it is modelled as
   * the list of its entries in that order. `Lookup` is `counts.get(key)` and
   * `SetCount` is `counts.set(key, n)`: an existing key keeps its place, a
   * new one goes last.
   */

  function Lookup(entries: seq<Entry>, key: string): Option<nat> {
    if entries == [] then None
    else if entries[0].0 == key then Some(entries[0].1)
    else Lookup(entries[1..], key)
  }

  function SetCount(entries: seq<Entry>, key: string, n: nat): seq<Entry> {
    if entries == [] then [(key, n)]
    else if entries[0].0 == key then [(key, n)] + entries[1..]
    else [entries[0]] + SetCount(entries[1..], key, n)
  }

  /** `counts.has(key)`. */
  lemma {:induction false} LookupFinds(entries: seq<Entry>, key: string)
    ensures Lookup(entries, key).Some? <==> key in Keys(entries)
  {
    if entries != [] {
      assert Keys(entries) == [entries[0].0] + Keys(entries[1..]);
      LookupFinds(entries[1..], key);
    }
  }

  /** Setting a key keeps the order of the keys and appends a new one. */
  lemma {:induction false} SetCountKeys(entries: seq<Entry>, key: string, n: nat)
    ensures Keys(SetCount(entries, key, n)) == if key in Keys(entries) then Keys(entries) else Keys(entries) + [key]
  {
    if entries != [] {
      assert Keys(entries) == [entries[0].0] + Keys(entries[1..]);
      if entries[0].0 != key {
        SetCountKeys(entries[1..], key, n);
        assert Keys(SetCount(entries, key, n)) == [entries[0].0] + Keys(SetCount(entries[1..], key, n));
      } else {
        assert Keys(SetCount(entries, key, n)) == [key] + Keys(entries[1..]);
      }
    }
  }

  lemma {:induction false} SetCountLookup(entries: seq<Entry>, key: string, n: nat, other: string)
    ensures Lookup(SetCount(entries, key, n), other) == if other == key then Some(n) else Lookup(entries, other)
  {
    if entries != [] && entries[0].0 != key {
      SetCountLookup(entries[1..], key, n, other);
    }
  }

  lemma {:induction false} SetCountSum(entries: seq<Entry>, key: string, n: nat)
    ensures SumCounts(SetCount(entries, key, n)) + Lookup(entries, key).GetOr(0) == SumCounts(entries) + n
  {
    if entries != [] && entries[0].0 != key {
      SetCountSum(entries[1..], key, n);
    }
  }

  lemma {:induction false} SetCountPositive(entries: seq<Entry>, key: string, n: nat)
    requires n >= 1 && forall i :: 0 <= i < |entries| ==> entries[i].1 >= 1
    ensures forall i :: 0 <= i < |SetCount(entries, key, n)| ==> SetCount(entries, key, n)[i].1 >= 1
  {
    if entries != [] && entries[0].0 != key {
      SetCountPositive(entries[1..], key, n);
    }
  }

  /** In a list whose labels are distinct, looking up an entry's key finds that entry. */
  lemma {:induction false} LookupDistinct(entries: seq<Entry>, i: int)
    requires NoDuplicates(Keys(entries)) && 0 <= i < |entries|
    ensures Lookup(entries, entries[i].0) == Some(entries[i].1)
  {
    if i > 0 {
      assert Keys(entries)[0] != Keys(entries)[i];
      assert Keys(entries[1..]) == Keys(entries)[1..];
      LookupDistinct(entries[1..], i - 1);
    }
  }

  /** The `Map` the `forEach` loop leaves behind after visiting `ideas`. */
  function Tally(ideas: seq<Idea>, locale: Locale): seq<Entry> {
    if ideas == [] then []
    else
      var counts := Tally(ideas[..|ideas| - 1], locale);
      var key := DayLabel(ideas[|ideas| - 1], locale);
      SetCount(counts, key, Lookup(counts, key).GetOr(0) + 1)
  }

  /** The `Map` never holds a key twice. */
  lemma {:induction false} TallyKeysDistinct(ideas: seq<Idea>, locale: Locale)
    ensures NoDuplicates(Keys(Tally(ideas, locale)))
  {
    if ideas != [] {
      var init := ideas[..|ideas| - 1];
      var counts := Tally(init, locale);
      var key := DayLabel(ideas[|ideas| - 1], locale);
      var next := SetCount(counts, key, Lookup(counts, key).GetOr(0) + 1);
      assert Tally(ideas, locale) == next;
      TallyKeysDistinct(init, locale);
      SetCountKeys(counts, key, Lookup(counts, key).GetOr(0) + 1);
      if key !in Keys(counts) {
        AppendNoDuplicates(Keys(counts), key);
        assert Keys(next) == Keys(counts) + [key];
      } else {
        assert Keys(next) == Keys(counts);
      }
    }
  }

  /** `counts.get(key)` is the number of ideas with that label, and absent when there are none. */
  lemma {:induction false} TallyLookup(ideas: seq<Idea>, locale: Locale, key: string)
    ensures Lookup(Tally(ideas, locale), key)
      == if CountLabel(ideas, key, locale) == 0 then None else Some(CountLabel(ideas, key, locale))
  {
    if ideas != [] {
      var init := ideas[..|ideas| - 1];
      var counts := Tally(init, locale);
      var last := DayLabel(ideas[|ideas| - 1], locale);
      TallyLookup(init, locale, key);
      TallyLookup(init, locale, last);
      SetCountLookup(counts, last, Lookup(counts, last).GetOr(0) + 1, key);
    }
  }

  /** Every count in the `Map` is at least one. */
  lemma {:induction false} TallyPositive(ideas: seq<Idea>, locale: Locale)
    ensures forall i :: 0 <= i < |Tally(ideas, locale)| ==> Tally(ideas, locale)[i].1 >= 1
  {
    if ideas != [] {
      var init := ideas[..|ideas| - 1];
      var counts := Tally(init, locale);
      var key := DayLabel(ideas[|ideas| - 1], locale);
      TallyPositive(init, locale);
      SetCountPositive(counts, key, Lookup(counts, key).GetOr(0) + 1);
    }
  }

  /** The counts add up to the number of ideas. */
  lemma {:induction false} TallySum(ideas: seq<Idea>, locale: Locale)
    ensures SumCounts(Tally(ideas, locale)) == |ideas|
  {
    if ideas != [] {
      var init := ideas[..|ideas| - 1];
      var counts := Tally(init, locale);
      var key := DayLabel(ideas[|ideas| - 1], locale);
      TallySum(init, locale);
      SetCountSum(counts, key, Lookup(counts, key).GetOr(0) + 1);
    }
  }

  /**
   * Before sorting, the histogram has one entry per distinct key, each
   * holding the number of ideas with that key (so at least one), and the
   * counts add up to the number of ideas.
   */
  lemma TallyCounts(ideas: seq<Idea>, locale: Locale)
    ensures var t := Tally(ideas, locale);
      && NoDuplicates(Keys(t))
      && (forall key :: Lookup(t, key) == if CountLabel(ideas, key, locale) == 0 then None else Some(CountLabel(ideas, key, locale)))
      && (forall i :: 0 <= i < |t| ==> t[i].1 >= 1)
      && SumCounts(t) == |ideas|
  {
    TallyKeysDistinct(ideas, locale);
    forall key ensures Lookup(Tally(ideas, locale), key)
      == if CountLabel(ideas, key, locale) == 0 then None else Some(CountLabel(ideas, key, locale))
    {
      TallyLookup(ideas, locale, key);
    }
    TallyPositive(ideas, locale);
    TallySum(ideas, locale);
  }

  /** Every entry holds the number of ideas carrying its key. */
  lemma TallyEntry(ideas: seq<Idea>, locale: Locale, i: int)
    requires 0 <= i < |Tally(ideas, locale)|
    ensures var e := Tally(ideas, locale)[i];
      e.1 == CountLabel(ideas, e.0, locale) && e.1 >= 1
  {
    TallyCounts(ideas, locale);
    LookupDistinct(Tally(ideas, locale), i);
  }

  // ---------------------------------------------------------------------------
  // Sorting the entries

  /** The comparator handed to `sort`: `Unknown date` goes last, other labels by the time they parse to. */
  function Compare(a: Entry, b: Entry, labelTime: string -> int): int {
    if a.0 == UnknownDate then 1
    else if b.0 == UnknownDate then -1
    else labelTime(a.0) - labelTime(b.0)
  }

  /** `a` may stand before `b` in the sorted histogram. */
  predicate InOrder(a: Entry, b: Entry, labelTime: string -> int) {
    if a.0 == UnknownDate then b.0 == UnknownDate
    else b.0 == UnknownDate || labelTime(a.0) <= labelTime(b.0)
  }

  predicate Sorted(s: seq<Entry>, labelTime: string -> int) {
    forall i, j :: 0 <= i < j < |s| ==> InOrder(s[i], s[j], labelTime)
  }

  /**
   * Placing `x`, which came later in the input, into a sorted list: it goes
   * after every entry the comparator does not put after it, as a stable
   * sort does.
   */
  function Insert(x: Entry, s: seq<Entry>, labelTime: string -> int): seq<Entry> {
    if s == [] then [x]
    else if Compare(s[0], x, labelTime) <= 0 then [s[0]] + Insert(x, s[1..], labelTime)
    else [x] + s
  }

  /** Stable sort: every entry is inserted, in input order, into the sorted prefix. */
  function SortByDay(s: seq<Entry>, labelTime: string -> int): seq<Entry> {
    if s == [] then [] else Insert(s[|s| - 1], SortByDay(s[..|s| - 1], labelTime), labelTime)
  }

  lemma {:induction false} InsertPermutes(x: Entry, s: seq<Entry>, labelTime: string -> int)
    ensures multiset(Insert(x, s, labelTime)) == multiset(s) + multiset{x}
  {
    if s != [] && Compare(s[0], x, labelTime) <= 0 {
      assert s == [s[0]] + s[1..];
      InsertPermutes(x, s[1..], labelTime);
    }
  }

  /** Sorting only reorders the entries. */
  lemma {:induction false} SortByDayPermutes(s: seq<Entry>, labelTime: string -> int)
    ensures multiset(SortByDay(s, labelTime)) == multiset(s)
  {
    if s != [] {
      assert s == s[..|s| - 1] + [s[|s| - 1]];
      SortByDayPermutes(s[..|s| - 1], labelTime);
      InsertPermutes(s[|s| - 1], SortByDay(s[..|s| - 1], labelTime), labelTime);
    }
  }

  /** `a` may stand before every entry of `s`. */
  predicate Precedes(a: Entry, s: seq<Entry>, labelTime: string -> int) {
    forall k :: 0 <= k < |s| ==> InOrder(a, s[k], labelTime)
  }

  /** Inserting an entry that `a` may precede keeps `a` in front of the whole list. */
  lemma {:induction false} InsertPrecedes(a: Entry, x: Entry, s: seq<Entry>, labelTime: string -> int)
    requires InOrder(a, x, labelTime) && Precedes(a, s, labelTime)
    ensures Precedes(a, Insert(x, s, labelTime), labelTime)
  {
    if s != [] && Compare(s[0], x, labelTime) <= 0 {
      var tail := Insert(x, s[1..], labelTime);
      InsertPrecedes(a, x, s[1..], labelTime);
      forall k | 0 <= k < |[s[0]] + tail| ensures InOrder(a, ([s[0]] + tail)[k], labelTime) {
        if k > 0 {
          assert ([s[0]] + tail)[k] == tail[k - 1];
        }
      }
    }
  }

  /** A sorted list with an entry in front that may precede all of it is sorted. */
  lemma SortedCons(h: Entry, t: seq<Entry>, labelTime: string -> int)
    requires Precedes(h, t, labelTime) && Sorted(t, labelTime)
    ensures Sorted([h] + t, labelTime)
  {
    var r := [h] + t;
    forall i, j | 0 <= i < j < |r| ensures InOrder(r[i], r[j], labelTime) {
      assert r[j] == t[j - 1];
      if i > 0 {
        assert r[i] == t[i - 1];
      }
    }
  }

  /** The head of a sorted list may precede its tail, and the tail is sorted. */
  lemma SortedUncons(s: seq<Entry>, labelTime: string -> int)
    requires Sorted(s, labelTime) && s != []
    ensures Precedes(s[0], s[1..], labelTime) && Sorted(s[1..], labelTime)
  {
    forall k | 0 <= k < |s[1..]| ensures InOrder(s[0], s[1..][k], labelTime) {
      assert s[1..][k] == s[k + 1];
    }
  }

  lemma {:induction false} InsertSorted(x: Entry, s: seq<Entry>, labelTime: string -> int)
    requires Sorted(s, labelTime)
    ensures Sorted(Insert(x, s, labelTime), labelTime)
  {
    if s != [] {
      SortedUncons(s, labelTime);
      if Compare(s[0], x, labelTime) <= 0 {
        InsertSorted(x, s[1..], labelTime);
        InsertPrecedes(s[0], x, s[1..], labelTime);
        SortedCons(s[0], Insert(x, s[1..], labelTime), labelTime);
      } else {
        forall k | 0 <= k < |s| ensures InOrder(x, s[k], labelTime) {
          assert k == 0 || InOrder(s[0], s[k], labelTime);
        }
        assert s == [s[0]] + s[1..];
        SortedCons(x, s, labelTime);
      }
    }
  }

  lemma {:induction false} SortByDaySorted(s: seq<Entry>, labelTime: string -> int)
    ensures Sorted(SortByDay(s, labelTime), labelTime)
  {
    if s != [] {
      SortByDaySorted(s[..|s| - 1], labelTime);
      InsertSorted(s[|s| - 1], SortByDay(s[..|s| - 1], labelTime), labelTime);
    }
  }

  /** Sorting keeps the set of labels, and keeps them distinct. */
  lemma {:induction false} InsertKeys(x: Entry, s: seq<Entry>, labelTime: string -> int)
    requires NoDuplicates(Keys(s)) && x.0 !in Keys(s)
    ensures NoDuplicates(Keys(Insert(x, s, labelTime)))
    ensures forall k :: k in Keys(Insert(x, s, labelTime)) <==> k == x.0 || k in Keys(s)
  {
    if s != [] && Compare(s[0], x, labelTime) <= 0 {
      assert Keys(s) == [s[0].0] + Keys(s[1..]);
      assert NoDuplicates(Keys(s[1..])) by {
        forall i, j | 0 <= i < j < |s| - 1 ensures Keys(s[1..])[i] != Keys(s[1..])[j] {
          assert Keys(s)[i + 1] != Keys(s)[j + 1];
        }
      }
      InsertKeys(x, s[1..], labelTime);
      assert Keys(Insert(x, s, labelTime)) == [s[0].0] + Keys(Insert(x, s[1..], labelTime));
      assert s[0].0 != x.0 && s[0].0 !in Keys(s[1..]);
      PrependNoDuplicates(s[0].0, Keys(Insert(x, s[1..], labelTime)));
    } else if s != [] {
      assert Keys(Insert(x, s, labelTime)) == [x.0] + Keys(s);
      PrependNoDuplicates(x.0, Keys(s));
    }
  }

  lemma {:induction false} SortByDayKeys(s: seq<Entry>, labelTime: string -> int)
    requires NoDuplicates(Keys(s))
    ensures NoDuplicates(Keys(SortByDay(s, labelTime)))
    ensures forall k :: k in Keys(SortByDay(s, labelTime)) <==> k in Keys(s)
  {
    if s != [] {
      var init := s[..|s| - 1];
      assert Keys(s) == Keys(init) + [s[|s| - 1].0];
      assert NoDuplicates(Keys(init)) by {
        forall i, j | 0 <= i < j < |init| ensures Keys(init)[i] != Keys(init)[j] {
          assert Keys(s)[i] != Keys(s)[j];
        }
      }
      assert s[|s| - 1].0 !in Keys(init) by {
        forall i | 0 <= i < |init| ensures Keys(init)[i] != s[|s| - 1].0 {
          assert Keys(s)[i] != Keys(s)[|s| - 1];
        }
      }
      SortByDayKeys(init, labelTime);
      InsertKeys(s[|s| - 1], SortByDay(init, labelTime), labelTime);
    }
  }

  /** With distinct labels, an `Unknown date` entry can only be the last one. */
  lemma {:induction false} UnknownDateLast(s: seq<Entry>, labelTime: string -> int, i: int)
    requires Sorted(s, labelTime) && NoDuplicates(Keys(s))
    requires 0 <= i < |s| && s[i].0 == UnknownDate
    ensures i == |s| - 1
  {
    var last := |s| - 1;
    assert InOrder(s[i], s[last], labelTime);
    assert Keys(s)[i] == Keys(s)[last];
  }

  /** `entries.slice(-5)`: the last five entries, or all of them when there are fewer. */
  function LastFive(s: seq<Entry>): (r: seq<Entry>)
    ensures |r| == if |s| < 5 then |s| else 5
    ensures r == s[|s| - |r|..]
  {
    s[if |s| < 5 then 0 else |s| - 5..]
  }

  /** The `forEach` loop that fills the `Map`. */
  method CountByDay(ideas: seq<Idea>, locale: Locale) returns (counts: seq<Entry>)
    ensures counts == Tally(ideas, locale)
  {
    counts := [];
    var i := 0;
    while i < |ideas|
      invariant 0 <= i <= |ideas|
      invariant counts == Tally(ideas[..i], locale)
    {
      assert ideas[..i + 1][..i] == ideas[..i];
      var key := DayLabel(ideas[i], locale);
      counts := SetCount(counts, key, Lookup(counts, key).GetOr(0) + 1);
      i := i + 1;
    }
    assert ideas[..i] == ideas;
  }

  /** A suffix of a sorted histogram with distinct labels is one too. */
  lemma {:induction false} SuffixSortedDistinct(s: seq<Entry>, labelTime: string -> int, start: int)
    requires Sorted(s, labelTime) && NoDuplicates(Keys(s)) && 0 <= start <= |s|
    ensures Sorted(s[start..], labelTime) && NoDuplicates(Keys(s[start..]))
  {
    var r := s[start..];
    forall i, j | 0 <= i < j < |r| ensures InOrder(r[i], r[j], labelTime) && Keys(r)[i] != Keys(r)[j] {
      assert r[i] == s[start + i] && r[j] == s[start + j];
      assert Keys(s)[start + i] != Keys(s)[start + j];
    }
  }

  /** The sorted histogram is in day order and its labels are distinct. */
  lemma SortedTally(ideas: seq<Idea>, locale: Locale)
    ensures var sorted := SortByDay(Tally(ideas, locale), locale.labelTime);
      Sorted(sorted, locale.labelTime) && NoDuplicates(Keys(sorted))
  {
    TallyCounts(ideas, locale);
    SortByDaySorted(Tally(ideas, locale), locale.labelTime);
    SortByDayKeys(Tally(ideas, locale), locale.labelTime);
  }

  /** Every entry of the sorted histogram holds the number of ideas carrying its label. */
  lemma {:induction false} SortedEntry(ideas: seq<Idea>, locale: Locale, i: int)
    requires 0 <= i < |SortByDay(Tally(ideas, locale), locale.labelTime)|
    ensures var e := SortByDay(Tally(ideas, locale), locale.labelTime)[i];
      e.1 == CountLabel(ideas, e.0, locale) && e.1 >= 1
  {
    var counts := Tally(ideas, locale);
    var sorted := SortByDay(counts, locale.labelTime);
    SortByDayPermutes(counts, locale.labelTime);
    assert sorted[i] in multiset(counts);
    var k :| 0 <= k < |counts| && counts[k] == sorted[i];
    TallyEntry(ideas, locale, k);
  }

  /**
   * `recentIdeaBuckets`: at most five entries with distinct labels, in day
   * order with `Unknown date` last, each holding the number of ideas of its
   * day; they are the last five of the whole sorted histogram.
   */
  method RecentIdeaBuckets(ideas: seq<Idea>, locale: Locale) returns (buckets: seq<Entry>)
    ensures buckets == LastFive(SortByDay(Tally(ideas, locale), locale.labelTime))
    ensures |buckets| <= 5
    ensures Sorted(buckets, locale.labelTime) && NoDuplicates(Keys(buckets))
    ensures forall i :: 0 <= i < |buckets| ==> buckets[i].1 == CountLabel(ideas, buckets[i].0, locale) >= 1
    ensures forall i :: 0 <= i < |buckets| && buckets[i].0 == UnknownDate ==> i == |buckets| - 1
  {
    var counts := CountByDay(ideas, locale);
    var entries := SortByDay(counts, locale.labelTime);
    buckets := LastFive(entries);
    var start := |entries| - |buckets|;
    assert buckets == entries[start..];
    SortedTally(ideas, locale);
    SuffixSortedDistinct(entries, locale.labelTime, start);
    forall i | 0 <= i < |buckets|
      ensures buckets[i].1 == CountLabel(ideas, buckets[i].0, locale) >= 1
    {
      assert buckets[i] == entries[start + i];
      SortedEntry(ideas, locale, start + i);
    }
    forall i | 0 <= i < |buckets| && buckets[i].0 == UnknownDate ensures i == |buckets| - 1 {
      UnknownDateLast(buckets, locale.labelTime, i);
    }
  }

  /** The width, in percent, of the bar drawn for a bucket: 20 per idea, capped at 100. */
  function BarWidth(count: int): (r: int)
    ensures r <= 100
    ensures count <= 5 ==> r == count * 20
    ensures count >= 5 ==> r == 100
  {
    if count * 20 < 100 then count * 20 else 100
  }

  /** Every bucket holds at least one idea, so every bar is between 20 and 100 percent wide. */
  lemma BarWidthOfBucket(count: int)
    requires count >= 1
    ensures 20 <= BarWidth(count) <= 100
  {
  }

  // ---------------------------------------------------------------------------
  // Handlers

  class IdeaBoardState {
    var draftIdea: string

    constructor ()
      ensures draftIdea == ""
    {
      draftIdea := "";
    }

    /**
     * `handleAdd`: without an `onAdd` callback nothing happens; otherwise a
     * draft that trims to something is passed on trimmed (`added`) and the
     * draft is cleared, and any other draft is left alone.
     */
    method HandleAdd(hasOnAdd: bool) returns (added: Option<string>)
      modifies this
      ensures added.Some? <==> hasOnAdd && Trim(old(draftIdea)) != ""
      ensures added.Some? ==> added.value == Trim(old(draftIdea)) && Trimmed(added.value) && draftIdea == ""
      ensures added.None? ==> draftIdea == old(draftIdea)
    {
      if !hasOnAdd {
        return None;
      }
      var trimmed := Trim(draftIdea);
      if trimmed == "" {
        return None;
      }
      added := Some(trimmed);
      draftIdea := "";
    }
  }

  /**
   * `handleEdit(idx)`: with an `onEdit` callback, the prompt is shown
   * pre-filled with the idea's text (`prompted`); `answer` is what the prompt
   * returned (`None` when it was cancelled). The callback gets the trimmed
   * answer only when that is non-empty.
   */
  method HandleEdit(ideas: seq<Idea>, hasOnEdit: bool, idx: nat, answer: Option<string>)
    returns (prompted: Option<string>, edit: Option<(nat, string)>)
    requires hasOnEdit ==> idx < |ideas|
    ensures prompted == if hasOnEdit then Some(ideas[idx].text) else None
    ensures edit.Some? <==> hasOnEdit && answer.Some? && Trim(answer.value) != ""
    ensures edit.Some? ==> edit.value == (idx, Trim(answer.value)) && Trimmed(edit.value.1)
  {
    if !hasOnEdit {
      return None, None;
    }
    prompted := Some(ideas[idx].text);
    edit := None;
    if answer.Some? && answer.value != "" {
      var trimmed := Trim(answer.value);
      if trimmed != "" {
        edit := Some((idx, trimmed));
      }
    }
  }

  /**
   * `handleRemove(idx)`: with an `onRemove` callback, asks for confirmation
   * (`asked`), and passes the index on only when it is confirmed.
   */
  method HandleRemove(hasOnRemove: bool, idx: nat, confirmed: bool) returns (asked: bool, removal: Option<nat>)
    ensures asked == hasOnRemove
    ensures removal == if hasOnRemove && confirmed then Some(idx) else None
  {
    if !hasOnRemove {
      return false, None;
    }
    asked := true;
    removal := if confirmed then Some(idx) else None;
  }
}
