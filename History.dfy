/**
 * `append_history`: today's snapshot becomes one record of the accumulated
 * history, replacing any record already dated today, and the history is kept
 * in date order and at most `MaxHistory` records long. Reading and writing
 * `history.json` are left to the caller: the loaded list comes in as a
 * parameter and the list to save comes out as the result.
 */
module History {
  import opened Wrappers
  import opened Text
  import opened Records
  import Quotes
  import Inventory

  /** `MAX_HISTORY`: the number of records kept. */
  const MaxHistory: nat := 365

  /** `HISTORY_FIELDS`: the instruments whose price each record keeps. */
  const HistoryFields: seq<string> :=
    ["gold", "silver", "copper", "dxy", "zijin_a", "zijin_h", "spx", "vix", "tnx", "gdx"]

  /** The keys of the inventory figures, present only when the inventory report was read. */
  const InventoryKeys: set<string> := {"cs_registered", "cs_eligible", "cs_withdrawn"}

  /** The `quotes` dictionary: an instrument's quote, or `None` where fetching it failed. */
  type QuoteTable = map<string, Option<Quotes.Quote>>

  // ---------------------------------------------------------------------------
  // Today's entry
  // ---------------------------------------------------------------------------

  /** `q = quotes.get(field)`, then `q["price"] if q else None`. */
  function PriceOf(quotes: QuoteTable, field: string): Value {
    if field in quotes && quotes[field].Some? then Number(quotes[field].value.price) else Null
  }

  /** The price members for `fields`, as the `for field in HISTORY_FIELDS` loop sets them. */
  function PriceFields(quotes: QuoteTable, fields: seq<string>): map<string, Value>
    decreases |fields|
  {
    if fields == [] then map[]
    else
      var f := fields[|fields| - 1];
      PriceFields(quotes, fields[..|fields| - 1])[f := PriceOf(quotes, f)]
  }

  /** The `cs_*` members, set only `if comex`. */
  function InventoryFields(comex: Option<Inventory.InventoryReport>): map<string, Value> {
    match comex
    case None => map[]
    case Some(c) =>
      map["cs_registered" := Number(c.registered), "cs_eligible" := Number(c.eligible),
          "cs_withdrawn" := Number(c.withdrawn)]
  }

  /** The `entry` record for `today`. */
  function NewEntry(today: string, quotes: QuoteTable, comex: Option<Inventory.InventoryReport>): Record {
    Record(Some(today), PriceFields(quotes, HistoryFields) + InventoryFields(comex))
  }

  lemma {:induction false} PriceFieldsHold(quotes: QuoteTable, fields: seq<string>)
    ensures PriceFields(quotes, fields).Keys == set f | f in fields
    ensures forall f :: f in fields ==> PriceFields(quotes, fields)[f] == PriceOf(quotes, f)
    decreases |fields|
  {
    if fields != [] {
      var front := fields[..|fields| - 1];
      PriceFieldsHold(quotes, front);
      assert fields == front + [fields[|fields| - 1]];
    }
  }

  /**
   * Today's entry is dated today and has a member for every tracked
   * instrument, holding its price, or null when no quote came back for it.
   */
  lemma NewEntryPrices(today: string, quotes: QuoteTable, comex: Option<Inventory.InventoryReport>)
    ensures NewEntry(today, quotes, comex).date == Some(today)
    ensures forall f :: f in HistoryFields ==>
      && f in NewEntry(today, quotes, comex).fields
      && (NewEntry(today, quotes, comex).fields[f].Number? <==> f in quotes && quotes[f].Some?)
      && (NewEntry(today, quotes, comex).fields[f].Number? ==>
            NewEntry(today, quotes, comex).fields[f].n == quotes[f].value.price)
    ensures forall f :: f in HistoryFields && !(f in quotes && quotes[f].Some?) ==>
      f in NewEntry(today, quotes, comex).fields && NewEntry(today, quotes, comex).fields[f] == Null
  {
    PriceFieldsHold(quotes, HistoryFields);
    forall f | f in HistoryFields
      ensures f !in InventoryFields(comex)
    {
    }
  }

  /**
   * Today's entry has the three inventory members exactly when the inventory
   * report was read, holding its figures, and no member besides those and the
   * instrument prices.
   */
  lemma NewEntryInventory(today: string, quotes: QuoteTable, comex: Option<Inventory.InventoryReport>)
    ensures NewEntry(today, quotes, comex).fields.Keys ==
      (set f | f in HistoryFields) + (if comex.Some? then InventoryKeys else {})
    ensures comex.Some? ==>
      && NewEntry(today, quotes, comex).fields["cs_registered"] == Number(comex.value.registered)
      && NewEntry(today, quotes, comex).fields["cs_eligible"] == Number(comex.value.eligible)
      && NewEntry(today, quotes, comex).fields["cs_withdrawn"] == Number(comex.value.withdrawn)
  {
    PriceFieldsHold(quotes, HistoryFields);
  }

  /** Today's entry is a well-formed record: its `"date"` is held apart only. */
  lemma NewEntryWellFormed(today: string, quotes: QuoteTable, comex: Option<Inventory.InventoryReport>)
    ensures WellFormed(NewEntry(today, quotes, comex))
  {
    NewEntryInventory(today, quotes, comex);
    assert "date" !in (set f | f in HistoryFields);
  }

  // ---------------------------------------------------------------------------
  // The merge
  // ---------------------------------------------------------------------------

  /** The test `r.get("date") != today`. */
  function NotDated(today: string): Record -> bool {
    (r: Record) => r.date != Some(today)
  }

  /** `[r for r in records if r.get("date") != today]`. */
  function WithoutDate(records: seq<Record>, today: string): seq<Record> {
    Filter(records, NotDated(today))
  }

  /** `records[-n:]` when the list is longer than `n`. */
  function KeepLast(s: seq<Record>, n: nat): seq<Record> {
    if |s| > n then s[|s| - n..] else s
  }

  /**
   * The list `append_history` saves, given the loaded list, today's date and
   * the entry built for today.
   */
  function Merge(records: seq<Record>, today: string, entry: Record): seq<Record> {
    KeepLast(SortByDate(WithoutDate(records, today) + [entry]), MaxHistory)
  }

  /** The building of `entry` in `append_history`: the date, one price per instrument, then the inventory figures. */
  method BuildEntry(today: string, quotes: QuoteTable, comex: Option<Inventory.InventoryReport>)
    returns (entry: Record)
    ensures entry == NewEntry(today, quotes, comex)
  {
    var fields: map<string, Value> := map[];
    var i := 0;
    while i < |HistoryFields|
      invariant 0 <= i <= |HistoryFields|
      invariant fields == PriceFields(quotes, HistoryFields[..i])
    {
      var field := HistoryFields[i];
      var q := if field in quotes then quotes[field] else None;
      assert HistoryFields[..i + 1][..i] == HistoryFields[..i];
      fields := fields[field := if q.Some? then Number(q.value.price) else Null];
      i := i + 1;
    }
    assert HistoryFields[..i] == HistoryFields;
    ghost var prices := fields;
    if comex.Some? {
      fields := fields["cs_registered" := Number(comex.value.registered)];
      fields := fields["cs_eligible" := Number(comex.value.eligible)];
      fields := fields["cs_withdrawn" := Number(comex.value.withdrawn)];
      assert fields.Keys == prices.Keys + InventoryFields(comex).Keys;
    }
    assert fields == prices + InventoryFields(comex);
    entry := Record(Some(today), fields);
  }

  /**
   * `append_history` once `history.json` has been read: drops the records
   * dated today, builds and appends today's entry, sorts by date and keeps the
   * last `MaxHistory` records. The result is the list written back.
   */
  method AppendHistory(records: seq<Record>, today: string, quotes: QuoteTable,
                       comex: Option<Inventory.InventoryReport>)
    returns (saved: seq<Record>)
    ensures saved == Merge(records, today, NewEntry(today, quotes, comex))
    ensures Sorted(saved) && |saved| <= MaxHistory
    ensures |saved| > 0 && Dated(saved, today) in {[], [NewEntry(today, quotes, comex)]}
  {
    var kept := WithoutDate(records, today);
    var entry := BuildEntry(today, quotes, comex);
    kept := kept + [entry];
    kept := SortByDate(kept);
    if |kept| > MaxHistory {
      kept := kept[|kept| - MaxHistory..];
    }
    saved := kept;
    MergeSorted(records, today, entry);
    MergeLength(records, today, entry);
    MergeTodayOnce(records, today, entry);
  }

  // ---------------------------------------------------------------------------
  // What the merge keeps
  // ---------------------------------------------------------------------------

  lemma KeepLastSuffix(s: seq<Record>, n: nat)
    ensures |KeepLast(s, n)| == (if |s| > n then n else |s|)
    ensures KeepLast(s, n) == s[|s| - |KeepLast(s, n)|..]
  {
  }

  /** None of the records left by the filter is dated today. */
  lemma WithoutDateDropsToday(records: seq<Record>, today: string, r: Record)
    ensures r in WithoutDate(records, today) <==> r in records && r.date != Some(today)
  {
    FilterMembers(records, NotDated(today), r);
  }

  /** A suffix of a sorted list is sorted. */
  lemma SuffixSorted(s: seq<Record>, k: nat)
    requires Sorted(s) && k <= |s|
    ensures Sorted(s[k..])
  {
    forall i, j | 0 <= i < j < |s| - k
      ensures Le(s[k..][i], s[k..][j])
    {
      assert s[k..][i] == s[k + i] && s[k..][j] == s[k + j];
    }
  }

  /** The saved history is in date order. */
  lemma MergeSorted(records: seq<Record>, today: string, entry: Record)
    ensures Sorted(Merge(records, today, entry))
  {
    var s := SortByDate(WithoutDate(records, today) + [entry]);
    SortSorted(WithoutDate(records, today) + [entry]);
    KeepLastSuffix(s, MaxHistory);
    SuffixSorted(s, |s| - |KeepLast(s, MaxHistory)|);
  }

  /**
   * The saved history holds today's entry and the records of other days, up to
   * `MaxHistory` of them in all.
   */
  lemma MergeLength(records: seq<Record>, today: string, entry: Record)
    ensures var n := |WithoutDate(records, today)| + 1;
      |Merge(records, today, entry)| == (if n > MaxHistory then MaxHistory else n)
    ensures |Merge(records, today, entry)| <= MaxHistory
  {
    KeepLastSuffix(SortByDate(WithoutDate(records, today) + [entry]), MaxHistory);
  }

  /** Every saved record is today's entry or a record of another day from the loaded list. */
  lemma MergeAddsOnlyEntry(records: seq<Record>, today: string, entry: Record, r: Record)
    requires r in Merge(records, today, entry)
    ensures r == entry || (r in records && r.date != Some(today))
  {
    var merged := WithoutDate(records, today) + [entry];
    var s := SortByDate(merged);
    KeepLastSuffix(s, MaxHistory);
    SortPermutes(merged);
    assert r in multiset(s);
    assert r in merged;
    WithoutDateDropsToday(records, today, r);
  }

  /** Merging a well-formed entry into well-formed records saves only well-formed records. */
  lemma MergeKeepsWellFormed(records: seq<Record>, today: string, entry: Record)
    requires forall r :: r in records ==> WellFormed(r)
    requires WellFormed(entry)
    ensures forall r :: r in Merge(records, today, entry) ==> WellFormed(r)
  {
    forall r | r in Merge(records, today, entry)
      ensures WellFormed(r)
    {
      MergeAddsOnlyEntry(records, today, entry, r);
    }
  }

  /**
   * A record of another day from the loaded list is saved, unless the history
   * is full and the record is no later than every record saved.
   */
  lemma MergeDropsOnlyOldest(records: seq<Record>, today: string, entry: Record, r: Record)
    requires r in records && r.date != Some(today)
    ensures var m := Merge(records, today, entry);
      r in m || (|m| == MaxHistory && forall y :: y in m ==> Le(r, y))
  {
    var merged := WithoutDate(records, today) + [entry];
    var s := SortByDate(merged);
    var m := Merge(records, today, entry);
    assert r in s by {
      WithoutDateDropsToday(records, today, r);
      SortPermutes(merged);
      assert r in multiset(s);
    }
    var i :| 0 <= i < |s| && s[i] == r;
    var k := |s| - |m|;
    assert m == s[k..] && (k > 0 ==> |m| == MaxHistory) by {
      KeepLastSuffix(s, MaxHistory);
    }
    if i < k {
      SortSorted(merged);
      forall y | y in m
        ensures Le(r, y)
      {
        var j :| 0 <= j < |m| && m[j] == y;
        assert s[k + j] == y;
      }
    } else {
      assert m[i - k] == r;
    }
  }

  /** The records dated `d` of a suffix are a suffix of the records dated `d`. */
  lemma DatedSuffix(s: seq<Record>, k: nat, d: string)
    requires k <= |s|
    ensures Dated(s, d) == Dated(s[..k], d) + Dated(s[k..], d)
  {
    assert s == s[..k] + s[k..];
    FilterConcat(s[..k], s[k..], DateIs(d));
  }

  /** Before truncation, the merge holds the entry and the other days' records, day by day in their order. */
  lemma SortedMergeDated(records: seq<Record>, today: string, entry: Record, d: string)
    requires entry.date == Some(today)
    ensures Dated(SortByDate(WithoutDate(records, today) + [entry]), d) ==
      if d == today then [entry] else Dated(records, d)
  {
    var kept := WithoutDate(records, today);
    SortKeepsDated(kept + [entry], d);
    FilterConcat(kept, [entry], DateIs(d));
    assert [entry][1..] == [];
    if d == today {
      forall i | 0 <= i < |kept|
        ensures !DateIs(d)(kept[i])
      {
        WithoutDateDropsToday(records, today, kept[i]);
      }
      FilterDropsAll(kept, DateIs(d));
    } else {
      FilterNarrow(records, DateIs(d), NotDated(today));
    }
  }

  /** The saved history has at most one record dated today, and that record is today's entry. */
  lemma MergeTodayOnce(records: seq<Record>, today: string, entry: Record)
    requires entry.date == Some(today)
    ensures Dated(Merge(records, today, entry), today) in {[], [entry]}
    ensures entry in Merge(records, today, entry) ==> Dated(Merge(records, today, entry), today) == [entry]
    ensures |WithoutDate(records, today)| < MaxHistory ==> Dated(Merge(records, today, entry), today) == [entry]
  {
    var s := SortByDate(WithoutDate(records, today) + [entry]);
    var m := Merge(records, today, entry);
    KeepLastSuffix(s, MaxHistory);
    var k := |s| - |m|;
    SortedMergeDated(records, today, entry, today);
    DatedSuffix(s, k, today);
    var dropped, saved := Dated(s[..k], today), Dated(m, today);
    assert dropped + saved == [entry];
    if |WithoutDate(records, today)| < MaxHistory {
      assert s[..k] == [];
    }
    if |dropped| == 0 {
      assert saved == [entry];
    } else {
      assert |saved| == 0;
    }
    FilterMembers(m, DateIs(today), entry);
  }

  /** For any other day, the saved records of that day are the loaded ones, or a tail of them once the history is full. */
  lemma MergeOtherDays(records: seq<Record>, today: string, entry: Record, d: string)
    requires entry.date == Some(today) && d != today
    ensures var m := Merge(records, today, entry);
      exists k :: 0 <= k <= |Dated(records, d)| && Dated(m, d) == Dated(records, d)[k..]
    ensures |WithoutDate(records, today)| < MaxHistory ==>
      Dated(Merge(records, today, entry), d) == Dated(records, d)
  {
    var s := SortByDate(WithoutDate(records, today) + [entry]);
    var m := Merge(records, today, entry);
    KeepLastSuffix(s, MaxHistory);
    SortedMergeDated(records, today, entry, d);
    DatedSuffix(s, |s| - |m|, d);
    var pre := Dated(s[..|s| - |m|], d);
    assert Dated(records, d)[|pre|..] == Dated(m, d);
  }

  /** Every date occurs at most once. */
  ghost predicate DatesUnique(s: seq<Record>) {
    forall d :: |Dated(s, d)| <= 1
  }

  /** A history with one record per date keeps that property. */
  lemma MergeKeepsDatesUnique(records: seq<Record>, today: string, entry: Record)
    requires entry.date == Some(today)
    requires DatesUnique(records)
    ensures DatesUnique(Merge(records, today, entry))
  {
    var m := Merge(records, today, entry);
    forall d
      ensures |Dated(m, d)| <= 1
    {
      if d == today {
        MergeTodayOnce(records, today, entry);
      } else {
        MergeOtherDays(records, today, entry, d);
      }
    }
  }

  /** Sorting a list with one more record at the end inserts that record into the sorted list. */
  lemma SortAppend(s: seq<Record>, x: Record)
    ensures SortByDate(s + [x]) == Insert(SortByDate(s), x)
  {
    assert (s + [x])[..|s|] == s;
  }

  /** Sorting the records left by the filter leaves none dated today. */
  lemma SortedKeptNotToday(records: seq<Record>, today: string)
    ensures forall i :: 0 <= i < |SortByDate(WithoutDate(records, today))| ==>
      SortByDate(WithoutDate(records, today))[i].date != Some(today)
  {
    var kept := WithoutDate(records, today);
    var p := SortByDate(kept);
    SortPermutes(kept);
    forall i | 0 <= i < |p|
      ensures p[i].date != Some(today)
    {
      assert p[i] in multiset(kept);
      WithoutDateDropsToday(records, today, p[i]);
    }
  }

  /** The last record of a sorted list of records no later than `x` is no later than `x`. */
  lemma SortedKeptBefore(records: seq<Record>, today: string, entry: Record)
    requires entry.date == Some(today)
    requires forall r :: r in records ==> LexLe(Key(r), today)
    ensures SortByDate(WithoutDate(records, today)) != [] ==>
      Le(SortByDate(WithoutDate(records, today))[|SortByDate(WithoutDate(records, today))| - 1], entry)
  {
    var kept := WithoutDate(records, today);
    var p := SortByDate(kept);
    if p != [] {
      SortPermutes(kept);
      assert p[|p| - 1] in multiset(kept);
      WithoutDateDropsToday(records, today, p[|p| - 1]);
    }
  }

  /**
   * On the usual daily run, when no loaded record is dated after today, today's
   * entry is the last record saved.
   */
  lemma MergeEntryLast(records: seq<Record>, today: string, entry: Record)
    requires entry.date == Some(today)
    requires forall r :: r in records ==> LexLe(Key(r), today)
    ensures |Merge(records, today, entry)| > 0
    ensures Merge(records, today, entry)[|Merge(records, today, entry)| - 1] == entry
  {
    var kept := WithoutDate(records, today);
    var p := SortByDate(kept);
    SortAppend(kept, entry);
    SortedKeptBefore(records, today, entry);
    LastOfKeepLast(p + [entry], MaxHistory);
  }

  lemma LastOfKeepLast(s: seq<Record>, n: nat)
    requires s != [] && n > 0
    ensures |KeepLast(s, n)| > 0 && KeepLast(s, n)[|KeepLast(s, n)| - 1] == s[|s| - 1]
  {
  }

  /** Removing the records dated `d` from sorted pieces around a record dated `d`. */
  lemma FilterAround(a: seq<Record>, x: Record, b: seq<Record>, today: string)
    requires x.date == Some(today)
    requires forall i :: 0 <= i < |a| ==> a[i].date != Some(today)
    requires forall i :: 0 <= i < |b| ==> b[i].date != Some(today)
    ensures WithoutDate(a + [x] + b, today) == a + b
  {
    var p := NotDated(today);
    FilterConcat(a + [x], b, p);
    FilterConcat(a, [x], p);
    assert [x][1..] == [];
    FilterKeepsAll(a, p);
    FilterKeepsAll(b, p);
  }

  lemma SpliceSuffix(p: seq<Record>, x: Record, j: nat, c: nat)
    requires j <= |p| && c <= |p| + 1
    ensures c <= j ==> (p[..j] + [x] + p[j..])[c..] == p[c..j] + [x] + p[j..]
    ensures c > j ==> (p[..j] + [x] + p[j..])[c..] == p[c - 1..]
  {
  }

  /** Merging the entry again into a history that still holds it changes nothing. */
  lemma RemergeKept(p: seq<Record>, today: string, entry: Record, c: nat, j: nat)
    requires entry.date == Some(today)
    requires Sorted(p) && c <= j <= |p| && |p| - c + 1 <= MaxHistory
    requires forall i :: 0 <= i < |p| ==> p[i].date != Some(today)
    requires forall i :: j <= i < |p| ==> !Le(p[i], entry)
    requires j > 0 ==> Le(p[j - 1], entry)
    ensures Merge(p[c..j] + [entry] + p[j..], today, entry) == p[c..j] + [entry] + p[j..]
  {
    var m := p[c..j] + [entry] + p[j..];
    var tail := p[c..];
    assert WithoutDate(m, today) == tail by {
      FilterAround(p[c..j], entry, p[j..], today);
      assert p[c..j] + p[j..] == tail;
    }
    assert SortByDate(tail) == tail by {
      SuffixSorted(p, c);
      SortOfSorted(tail);
    }
    InsertIntoSuffix(p, entry, c, j);
    SortAppend(tail, entry);
  }

  /** Merging the entry again into a full history that evicted it changes nothing either. */
  lemma RemergeEvicted(m: seq<Record>, today: string, entry: Record)
    requires entry.date == Some(today)
    requires Sorted(m) && |m| == MaxHistory
    requires forall i :: 0 <= i < |m| ==> m[i].date != Some(today) && !Le(m[i], entry)
    ensures Merge(m, today, entry) == m
  {
    FilterKeepsAll(m, NotDated(today));
    SortOfSorted(m);
    SortAppend(m, entry);
    InsertAt(m, entry, 0);
    assert ([entry] + m)[1..] == m;
  }

  /** Merging the entry again into a saved history, given as the sorted kept records with the entry spliced in at `j`. */
  lemma RemergeSpliced(p: seq<Record>, today: string, entry: Record, j: nat)
    requires entry.date == Some(today)
    requires Sorted(p) && j <= |p|
    requires forall i :: 0 <= i < |p| ==> p[i].date != Some(today)
    requires forall i :: j <= i < |p| ==> !Le(p[i], entry)
    requires j > 0 ==> Le(p[j - 1], entry)
    ensures Merge(KeepLast(p[..j] + [entry] + p[j..], MaxHistory), today, entry)
         == KeepLast(p[..j] + [entry] + p[j..], MaxHistory)
  {
    var s := p[..j] + [entry] + p[j..];
    var m := KeepLast(s, MaxHistory);
    var c := |s| - |m|;
    KeepLastSuffix(s, MaxHistory);
    SpliceSuffix(p, entry, j, c);
    if c <= j {
      RemergeKept(p, today, entry, c, j);
    } else {
      SuffixSorted(p, c - 1);
      RemergeEvicted(m, today, entry);
    }
  }

  /**
   * Running the merge again with the same entry, as a rerun of the job on the
   * same day does, saves the same history.
   */
  lemma MergeIdempotent(records: seq<Record>, today: string, entry: Record)
    requires entry.date == Some(today)
    ensures Merge(Merge(records, today, entry), today, entry) == Merge(records, today, entry)
  {
    var kept := WithoutDate(records, today);
    var p := SortByDate(kept);
    var j := InsertPos(p, entry);
    assert Merge(records, today, entry) == KeepLast(p[..j] + [entry] + p[j..], MaxHistory) by {
      SortAppend(kept, entry);
      InsertSplit(p, entry);
    }
    SortSorted(kept);
    SortedKeptNotToday(records, today);
    InsertPosBounds(p, entry);
    RemergeSpliced(p, today, entry, j);
  }
}
