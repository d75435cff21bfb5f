/** Grouped counts: `groupby(key).size()` followed by
    `sort_values(by="count", ascending=False)`, and `value_counts()`.
    Both give one (value, count) entry per distinct value, largest count
    first. */
module Counts {
  import opened Table
  import opened Sorting

  datatype Entry = Entry(key: string, count: nat)

  /** The category column of a count table. */
  function Keys(t: seq<Entry>): (ks: seq<string>)
    ensures |ks| == |t|
    ensures forall i :: 0 <= i < |t| ==> ks[i] == t[i].key
  {
    if t == [] then [] else [t[0].key] + Keys(t[1..])
  }

  /** The sum of the count column. */
  function Total(t: seq<Entry>): nat
  {
    if t == [] then 0 else t[0].count + Total(t[1..])
  }

  /** The count recorded for `k`, 0 when `k` has no entry. */
  function CountOf(t: seq<Entry>, k: string): nat
  {
    if t == [] then 0
    else if t[0].key == k then t[0].count
    else CountOf(t[1..], k)
  }

  /** Counts one more occurrence of `x`. */
  function Bump(t: seq<Entry>, x: string): seq<Entry>
  {
    if t == [] then [Entry(x, 1)]
    else if t[0].key == x then [Entry(x, t[0].count + 1)] + t[1..]
    else [t[0]] + Bump(t[1..], x)
  }

  /** Occurrence counts of the values of `s`, one entry per distinct value
      in order of first appearance. */
  function Tally(s: seq<string>): seq<Entry>
  {
    if s == [] then [] else Bump(Tally(s[..|s| - 1]), s[|s| - 1])
  }

  function Descending(e: Entry): int { -(e.count as int) }

  /** The count table the charts receive: the tally ordered by non-increasing
      count. */
  function GroupCounts(s: seq<string>): seq<Entry>
  {
    SortBy(Tally(s), Descending)
  }

  /** The count table is ordered by non-increasing count, has one entry per
      distinct value of the column and none for an absent value, counts each
      value exactly, and its counts add up to the number of rows. */
  lemma GroupCountsSpec(s: seq<string>)
    ensures var r := GroupCounts(s);
      && (forall i, j :: 0 <= i < j < |r| ==> r[i].count >= r[j].count)
      && NoDuplicates(Keys(r))
      && (forall i :: 0 <= i < |r| ==> r[i].count > 0 && r[i].count == multiset(s)[r[i].key])
      && (forall k :: k in s <==> k in Keys(r))
      && Total(r) == |s|
  {
    var t := Tally(s);
    var r := GroupCounts(s);
    TallyKeys(s);
    TallyTotal(s);
    TallyEntries(s);
    SortedPreserves(t);
    assert SortedBy(r, Descending);
    forall i | 0 <= i < |r| ensures r[i].count > 0 && r[i].count == multiset(s)[r[i].key] {
      assert r[i] in t;
    }
    forall k ensures k in s <==> k in Keys(r) {
      KeysMember(r, k);
      KeysMember(t, k);
      if k in Keys(t) {
        var i :| 0 <= i < |t| && t[i].key == k;
        assert t[i] in r;
      }
      if k in Keys(r) {
        var i :| 0 <= i < |r| && r[i].key == k;
        assert r[i] in t;
      }
    }
  }

  /** Counts per "Class Description" (the bar chart of the Home page). */
  function ClassDescriptionCounts(rows: seq<Record>): (r: seq<Entry>)
    ensures Total(r) == |rows|
  {
    GroupCountsSpec(Column(rows, ClassDescription));
    GroupCounts(Column(rows, ClassDescription))
  }

  /** Counts per "Status" (the metrics of the Home page). */
  function StatusCounts(rows: seq<Record>): (r: seq<Entry>)
    ensures Total(r) == |rows|
  {
    GroupCountsSpec(Column(rows, Status));
    GroupCounts(Column(rows, Status))
  }

  // ----- properties of the tally

  lemma NoDuplicatesTail(ks: seq<string>)
    requires ks != [] && NoDuplicates(ks)
    ensures NoDuplicates(ks[1..])
  {
  }

  lemma {:induction false} KeysMember(t: seq<Entry>, k: string)
    ensures k in Keys(t) <==> exists i :: 0 <= i < |t| && t[i].key == k
  {
    if t != [] {
      KeysMember(t[1..], k);
      if k in Keys(t[1..]) {
        var i :| 0 <= i < |t[1..]| && t[1..][i].key == k;
        assert t[i + 1].key == k;
      }
      forall i | 0 < i < |t| && t[i].key == k ensures k in Keys(t[1..]) {
        assert t[1..][i - 1].key == k;
      }
    }
  }

  lemma {:induction false} BumpKeys(t: seq<Entry>, x: string)
    ensures Keys(Bump(t, x)) == if x in Keys(t) then Keys(t) else Keys(t) + [x]
  {
    if t != [] && t[0].key != x {
      BumpKeys(t[1..], x);
    }
  }

  lemma {:induction false} BumpCount(t: seq<Entry>, x: string, k: string)
    ensures CountOf(Bump(t, x), k) == CountOf(t, k) + if k == x then 1 else 0
  {
    if t != [] && t[0].key != x {
      BumpCount(t[1..], x, k);
    }
  }

  lemma {:induction false} BumpTotal(t: seq<Entry>, x: string)
    ensures Total(Bump(t, x)) == Total(t) + 1
  {
    if t != [] && t[0].key != x {
      BumpTotal(t[1..], x);
    }
  }

  lemma {:induction false} BumpPositive(t: seq<Entry>, x: string)
    requires forall i :: 0 <= i < |t| ==> t[i].count > 0
    ensures forall i :: 0 <= i < |Bump(t, x)| ==> Bump(t, x)[i].count > 0
  {
    if t != [] && t[0].key != x {
      BumpPositive(t[1..], x);
    }
  }

  /** The tally has one entry per distinct value, in first-appearance order. */
  lemma {:induction false} TallyKeys(s: seq<string>)
    ensures Keys(Tally(s)) == Unique(s)
  {
    if s != [] {
      TallyKeys(s[..|s| - 1]);
      BumpKeys(Tally(s[..|s| - 1]), s[|s| - 1]);
    }
  }

  /** Every value is counted as often as it occurs. */
  lemma {:induction false} TallyCount(s: seq<string>, k: string)
    ensures CountOf(Tally(s), k) == multiset(s)[k]
  {
    if s != [] {
      var p := s[..|s| - 1];
      assert s == p + [s[|s| - 1]];
      TallyCount(p, k);
      BumpCount(Tally(p), s[|s| - 1], k);
    }
  }

  lemma {:induction false} TallyTotal(s: seq<string>)
    ensures Total(Tally(s)) == |s|
  {
    if s != [] {
      TallyTotal(s[..|s| - 1]);
      BumpTotal(Tally(s[..|s| - 1]), s[|s| - 1]);
    }
  }

  lemma {:induction false} TallyPositive(s: seq<string>)
    ensures forall i :: 0 <= i < |Tally(s)| ==> Tally(s)[i].count > 0
  {
    if s != [] {
      TallyPositive(s[..|s| - 1]);
      BumpPositive(Tally(s[..|s| - 1]), s[|s| - 1]);
    }
  }

  /** In a table with distinct keys, an entry's count is the count of its key. */
  lemma {:induction false} CountOfMember(t: seq<Entry>, i: nat)
    requires i < |t| && NoDuplicates(Keys(t))
    ensures CountOf(t, t[i].key) == t[i].count
  {
    if i > 0 {
      NoDuplicatesTail(Keys(t));
      CountOfMember(t[1..], i - 1);
    }
  }

  lemma TallyEntries(s: seq<string>)
    ensures NoDuplicates(Keys(Tally(s)))
    ensures forall i :: 0 <= i < |Tally(s)| ==>
      Tally(s)[i].count > 0 && Tally(s)[i].count == multiset(s)[Tally(s)[i].key]
  {
    var t := Tally(s);
    TallyKeys(s);
    TallyPositive(s);
    forall i | 0 <= i < |t| ensures t[i].count == multiset(s)[t[i].key] {
      CountOfMember(t, i);
      TallyCount(s, t[i].key);
    }
  }

  // ----- properties of the sorted table

  lemma {:induction false} InsertTotal(e: Entry, s: seq<Entry>)
    requires SortedBy(s, Descending)
    ensures Total(Insert(e, s, Descending)) == e.count + Total(s)
  {
    if s != [] && Descending(e) > Descending(s[0]) {
      InsertTotal(e, s[1..]);
    }
  }

  lemma {:induction false} InsertKeysMember(e: Entry, s: seq<Entry>, k: string)
    requires SortedBy(s, Descending)
    ensures k in Keys(Insert(e, s, Descending)) <==> k == e.key || k in Keys(s)
  {
    if s != [] && Descending(e) > Descending(s[0]) {
      InsertKeysMember(e, s[1..], k);
      assert Keys(s) == [s[0].key] + Keys(s[1..]);
      assert Keys(Insert(e, s, Descending)) == [s[0].key] + Keys(Insert(e, s[1..], Descending));
    }
  }

  lemma NoDuplicatesCons(a: string, ks: seq<string>)
    requires a !in ks && NoDuplicates(ks)
    ensures NoDuplicates([a] + ks)
  {
  }

  lemma {:induction false} InsertKeys(e: Entry, s: seq<Entry>)
    requires SortedBy(s, Descending)
    requires NoDuplicates(Keys(s)) && e.key !in Keys(s)
    ensures NoDuplicates(Keys(Insert(e, s, Descending)))
  {
    if s == [] {
    } else if Descending(e) <= Descending(s[0]) {
      assert Keys(Insert(e, s, Descending)) == [e.key] + Keys(s);
      NoDuplicatesCons(e.key, Keys(s));
    } else {
      assert Keys(s) == [s[0].key] + Keys(s[1..]);
      NoDuplicatesTail(Keys(s));
      InsertKeys(e, s[1..]);
      var t := Insert(e, s[1..], Descending);
      InsertKeysMember(e, s[1..], s[0].key);
      assert Keys(Insert(e, s, Descending)) == [s[0].key] + Keys(t);
      NoDuplicatesCons(s[0].key, Keys(t));
    }
  }

  lemma {:induction false} SortKeysMember(t: seq<Entry>, k: string)
    ensures k in Keys(SortBy(t, Descending)) <==> k in Keys(t)
  {
    if t != [] {
      SortKeysMember(t[1..], k);
      InsertKeysMember(t[0], SortBy(t[1..], Descending), k);
      assert Keys(t) == [t[0].key] + Keys(t[1..]);
    }
  }

  lemma {:induction false} SortKeysTotal(t: seq<Entry>)
    requires NoDuplicates(Keys(t))
    ensures NoDuplicates(Keys(SortBy(t, Descending)))
    ensures Total(SortBy(t, Descending)) == Total(t)
  {
    if t != [] {
      assert Keys(t) == [t[0].key] + Keys(t[1..]);
      NoDuplicatesTail(Keys(t));
      SortKeysTotal(t[1..]);
      var r := SortBy(t[1..], Descending);
      InsertTotal(t[0], r);
      SortKeysMember(t[1..], t[0].key);
      InsertKeys(t[0], r);
    }
  }

  /** Sorting the tally keeps its keys distinct and its entries and total. */
  lemma SortedPreserves(t: seq<Entry>)
    requires NoDuplicates(Keys(t))
    ensures NoDuplicates(Keys(SortBy(t, Descending)))
    ensures Total(SortBy(t, Descending)) == Total(t)
    ensures forall e :: e in SortBy(t, Descending) <==> e in t
  {
    SortKeysTotal(t);
    forall e ensures e in SortBy(t, Descending) <==> e in t {
      SortByMembers(t, Descending, e);
    }
  }
}
