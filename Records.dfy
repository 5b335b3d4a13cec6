/**
 * History records and the two list operations `append_history` applies to
 * them: filtering by a comprehension, and Python's stable `list.sort` keyed
 * on the record's date.
 */
module Records {
  import opened Wrappers
  import opened Text

  /** A JSON value stored in a history record. */
  datatype Value = Null | Number(n: real) | JsonString(s: string)

  /**
   * One entry of `history.json`: a JSON object. Its `"date"` member is held
   * apart (absent when the object has none); `fields` holds every other member,
   * so in a record that stands for a JSON object `fields` has no `"date"` key
   * (`WellFormed`).
   */
  datatype Record = Record(date: Option<string>, fields: map<string, Value>)

  /** The record stands for exactly one JSON object: `"date"` is not repeated among the other members. */
  predicate WellFormed(r: Record) {
    "date" !in r.fields
  }

  /** The sort key `r.get("date", "")`. */
  function Key(r: Record): string {
    r.date.GetOr("")
  }

  /** `a` may stand before `b` in date order. */
  predicate Le(a: Record, b: Record) {
    LexLe(Key(a), Key(b))
  }

  // ---------------------------------------------------------------------------
  // Filtering
  // ---------------------------------------------------------------------------

  /** `[r for r in s if p(r)]`. */
  function Filter(s: seq<Record>, p: Record -> bool): (f: seq<Record>)
    ensures |f| <= |s|
    decreases |s|
  {
    if s == [] then []
    else if p(s[0]) then [s[0]] + Filter(s[1..], p)
    else Filter(s[1..], p)
  }

  /** A record survives the filter exactly when it is in the list and passes the test. */
  lemma {:induction false} FilterMembers(s: seq<Record>, p: Record -> bool, x: Record)
    ensures x in Filter(s, p) <==> x in s && p(x)
    decreases |s|
  {
    if s != [] {
      FilterMembers(s[1..], p, x);
      assert s == [s[0]] + s[1..];
    }
  }

  lemma {:induction false} FilterConcat(a: seq<Record>, b: seq<Record>, p: Record -> bool)
    ensures Filter(a + b, p) == Filter(a, p) + Filter(b, p)
    decreases |a|
  {
    if a == [] {
      assert a + b == b;
    } else {
      assert (a + b)[0] == a[0];
      assert (a + b)[1..] == a[1..] + b;
      FilterConcat(a[1..], b, p);
    }
  }

  /** A filter that every element passes changes nothing. */
  lemma {:induction false} FilterKeepsAll(s: seq<Record>, p: Record -> bool)
    requires forall i :: 0 <= i < |s| ==> p(s[i])
    ensures Filter(s, p) == s
    decreases |s|
  {
    if s != [] {
      FilterKeepsAll(s[1..], p);
      assert s == [s[0]] + s[1..];
    }
  }

  /** A filter that no element passes leaves nothing. */
  lemma {:induction false} FilterDropsAll(s: seq<Record>, p: Record -> bool)
    requires forall i :: 0 <= i < |s| ==> !p(s[i])
    ensures Filter(s, p) == []
    decreases |s|
  {
    if s != [] {
      FilterDropsAll(s[1..], p);
    }
  }

  /** Filtering by a weaker test first does not change a filter by a stronger one. */
  lemma {:induction false} FilterNarrow(s: seq<Record>, p: Record -> bool, q: Record -> bool)
    requires forall r :: p(r) ==> q(r)
    ensures Filter(Filter(s, q), p) == Filter(s, p)
    decreases |s|
  {
    if s != [] {
      FilterNarrow(s[1..], p, q);
      if q(s[0]) {
        var rest := Filter(s[1..], q);
        assert ([s[0]] + rest)[0] == s[0];
        assert ([s[0]] + rest)[1..] == rest;
      }
    }
  }

  /** The test `Key(r) == k`. */
  function KeyIs(k: string): Record -> bool {
    (r: Record) => Key(r) == k
  }

  /** The test `r.get("date") == d`. */
  function DateIs(d: string): Record -> bool {
    (r: Record) => r.date == Some(d)
  }

  /** The records with date key `k`, in list order. */
  function ByKey(s: seq<Record>, k: string): seq<Record> {
    Filter(s, KeyIs(k))
  }

  /** The records whose `"date"` is `d`, in list order. */
  function Dated(s: seq<Record>, d: string): seq<Record> {
    Filter(s, DateIs(d))
  }

  /** The records dated `d` are found among those with key `d`. */
  lemma DatedWithinKey(s: seq<Record>, d: string)
    ensures Dated(ByKey(s, d), d) == Dated(s, d)
  {
    FilterNarrow(s, DateIs(d), KeyIs(d));
  }

  // ---------------------------------------------------------------------------
  // Stable sort by date
  // ---------------------------------------------------------------------------

  /** Every record's key is at most every later record's key. */
  predicate Sorted(s: seq<Record>) {
    forall i, j :: 0 <= i < j < |s| ==> Le(s[i], s[j])
  }

  /** Where `Insert` puts `x`: just after the last record whose key is at most `x`'s. */
  function InsertPos(s: seq<Record>, x: Record): (j: nat)
    ensures j <= |s|
    decreases |s|
  {
    if s == [] then 0
    else if Le(s[|s| - 1], x) then |s|
    else InsertPos(s[..|s| - 1], x)
  }

  /** One step of insertion sort: `x` goes after every record not later than it. */
  function Insert(s: seq<Record>, x: Record): (t: seq<Record>)
    ensures |t| == |s| + 1
    decreases |s|
  {
    if s == [] then [x]
    else if Le(s[|s| - 1], x) then s + [x]
    else Insert(s[..|s| - 1], x) + [s[|s| - 1]]
  }

  /** `s.sort(key=lambda r: r.get("date", ""))`: a stable sort by date key. */
  function SortByDate(s: seq<Record>): (t: seq<Record>)
    ensures |t| == |s|
    decreases |s|
  {
    if s == [] then [] else Insert(SortByDate(s[..|s| - 1]), s[|s| - 1])
  }

  lemma {:induction false} InsertPosBounds(s: seq<Record>, x: Record)
    ensures forall i :: InsertPos(s, x) <= i < |s| ==> !Le(s[i], x)
    ensures InsertPos(s, x) > 0 ==> Le(s[InsertPos(s, x) - 1], x)
    decreases |s|
  {
    if s != [] && !Le(s[|s| - 1], x) {
      InsertPosBounds(s[..|s| - 1], x);
    }
  }

  /** `Insert` puts `x` at any position after which only later records follow. */
  lemma {:induction false} InsertAt(s: seq<Record>, x: Record, j: nat)
    requires j <= |s|
    requires forall i :: j <= i < |s| ==> !Le(s[i], x)
    requires j > 0 ==> Le(s[j - 1], x)
    ensures Insert(s, x) == s[..j] + [x] + s[j..]
    decreases |s|
  {
    if |s| == j {
      assert s[..j] == s && s[j..] == [];
    } else {
      var front := s[..|s| - 1];
      assert front[..j] == s[..j];
      InsertAt(front, x, j);
      assert front[j..] + [s[|s| - 1]] == s[j..];
    }
  }

  /** Inserting into a tail of the list puts `x` where it went in the whole list, if that is within the tail. */
  lemma InsertIntoSuffix(s: seq<Record>, x: Record, c: nat, j: nat)
    requires c <= j <= |s|
    requires forall i :: j <= i < |s| ==> !Le(s[i], x)
    requires j > 0 ==> Le(s[j - 1], x)
    ensures Insert(s[c..], x) == s[c..j] + [x] + s[j..]
  {
    var tail := s[c..];
    assert tail[..j - c] == s[c..j] && tail[j - c..] == s[j..];
    forall i | j - c <= i < |tail|
      ensures !Le(tail[i], x)
    {
      assert tail[i] == s[c + i];
    }
    InsertAt(tail, x, j - c);
  }

  lemma InsertSplit(s: seq<Record>, x: Record)
    ensures Insert(s, x) == s[..InsertPos(s, x)] + [x] + s[InsertPos(s, x)..]
  {
    InsertPosBounds(s, x);
    InsertAt(s, x, InsertPos(s, x));
  }

  /** Inserting into a sorted list keeps it sorted. */
  lemma InsertSorted(s: seq<Record>, x: Record)
    requires Sorted(s)
    ensures Sorted(Insert(s, x))
  {
    var j := InsertPos(s, x);
    InsertSplit(s, x);
    InsertPosBounds(s, x);
    var t := Insert(s, x);
    forall a, b | 0 <= a < b < |t|
      ensures Le(t[a], t[b])
    {
      if a < j && b == j {
        if a < j - 1 {
          LexLeTransitive(Key(s[a]), Key(s[j - 1]), Key(x));
        }
      } else if a == j && b > j {
        LexLeTotal(Key(x), Key(s[b - 1]));
      } else if a < j && b > j {
        assert Le(s[a], s[b - 1]);
      } else if b > j {
        assert Le(s[a - 1], s[b - 1]);
      }
    }
  }

  /** The sorted list is sorted by date key. */
  lemma {:induction false} SortSorted(s: seq<Record>)
    ensures Sorted(SortByDate(s))
    decreases |s|
  {
    if s != [] {
      SortSorted(s[..|s| - 1]);
      InsertSorted(SortByDate(s[..|s| - 1]), s[|s| - 1]);
    }
  }

  lemma {:induction false} InsertPermutes(s: seq<Record>, x: Record)
    ensures multiset(Insert(s, x)) == multiset(s) + multiset{x}
    decreases |s|
  {
    if s != [] && !Le(s[|s| - 1], x) {
      InsertPermutes(s[..|s| - 1], x);
      assert s == s[..|s| - 1] + [s[|s| - 1]];
    }
  }

  /** Sorting neither adds, drops nor duplicates a record. */
  lemma {:induction false} SortPermutes(s: seq<Record>)
    ensures multiset(SortByDate(s)) == multiset(s)
    decreases |s|
  {
    if s != [] {
      SortPermutes(s[..|s| - 1]);
      InsertPermutes(SortByDate(s[..|s| - 1]), s[|s| - 1]);
      assert s == s[..|s| - 1] + [s[|s| - 1]];
    }
  }

  lemma {:induction false} InsertByKey(s: seq<Record>, x: Record, k: string)
    ensures ByKey(Insert(s, x), k) == ByKey(s, k) + (if Key(x) == k then [x] else [])
    decreases |s|
  {
    var p := KeyIs(k);
    if s == [] {
      assert [x][1..] == [];
    } else {
      var front, last := s[..|s| - 1], s[|s| - 1];
      assert s == front + [last];
      FilterConcat(front, [last], p);
      assert [last][1..] == [] && [x][1..] == [];
      if Le(last, x) {
        FilterConcat(s, [x], p);
      } else {
        LexLeReflexive(Key(x));
        InsertByKey(front, x, k);
        FilterConcat(Insert(front, x), [last], p);
      }
    }
  }

  /** The sort is stable: the records sharing a date key keep their relative order. */
  lemma {:induction false} SortStable(s: seq<Record>, k: string)
    ensures ByKey(SortByDate(s), k) == ByKey(s, k)
    decreases |s|
  {
    if s != [] {
      var front, last := s[..|s| - 1], s[|s| - 1];
      SortStable(front, k);
      InsertByKey(SortByDate(front), last, k);
      assert s == front + [last];
      FilterConcat(front, [last], KeyIs(k));
      assert [last][1..] == [];
    }
  }

  /** Sorting keeps, for every date, the records of that date in their order. */
  lemma SortKeepsDated(s: seq<Record>, d: string)
    ensures Dated(SortByDate(s), d) == Dated(s, d)
  {
    SortStable(s, d);
    DatedWithinKey(SortByDate(s), d);
    DatedWithinKey(s, d);
  }

  /** A list already in date order is left as it is. */
  lemma {:induction false} SortOfSorted(s: seq<Record>)
    requires Sorted(s)
    ensures SortByDate(s) == s
    decreases |s|
  {
    if s != [] {
      var front := s[..|s| - 1];
      assert Sorted(front);
      SortOfSorted(front);
      if |front| > 0 {
        assert Le(front[|front| - 1], s[|s| - 1]);
      }
      assert front + [s[|s| - 1]] == s;
    }
  }
}
