/** `ORDER BY reminder.date ASC`: the ordering the date-range scan returns its rows in. */
module ReminderOrder {
  import opened Entities

  predicate SortedByDate(s: seq<Reminder>) {
    forall i, j :: 0 <= i < j < |s| ==> s[i].date <= s[j].date
  }

  /** A row no later than the head of a sorted sequence can go in front of it. */
  lemma ConsSorted(a: Reminder, t: seq<Reminder>)
    requires SortedByDate(t)
    requires t != [] ==> a.date <= t[0].date
    ensures SortedByDate([a] + t)
  {
    var r := [a] + t;
    forall i, j | 0 <= i < j < |r| ensures r[i].date <= r[j].date {
      if i > 0 {
        assert r[i] == t[i - 1] && r[j] == t[j - 1];
      } else {
        assert r[j] == t[j - 1];
        assert t[0].date <= t[j - 1].date || j == 1;
      }
    }
  }

  /** Places `x` into a date-sorted sequence; rows with equal dates may come in any order
      in the source, and here `x` goes before the first row that is not earlier. */
  function InsertByDate(s: seq<Reminder>, x: Reminder): (r: seq<Reminder>)
    requires SortedByDate(s)
    ensures SortedByDate(r)
    ensures multiset(r) == multiset(s) + multiset{x}
    ensures |r| == |s| + 1
    ensures r[0] == x || (s != [] && r[0] == s[0])
  {
    if s == [] then [x]
    else if x.date <= s[0].date then
      ConsSorted(x, s);
      [x] + s
    else
      var rest := InsertByDate(s[1..], x);
      assert s == [s[0]] + s[1..];
      assert rest[0] == x || rest[0] == s[1];
      ConsSorted(s[0], rest);
      [s[0]] + rest
  }

  /** A sequence holding each row of a set exactly once has the set's rows and size. */
  lemma ListsSet(r: seq<Reminder>, s: set<Reminder>)
    requires multiset(r) == multiset(s)
    ensures forall x :: x in r <==> x in s
    ensures |r| == |s|
  {
    forall x ensures x in r <==> x in s {
      assert x in r <==> x in multiset(r);
    }
    assert |multiset(r)| == |r|;
  }

  /** `ORDER BY reminder.date ASC` over the selected rows: every row exactly once, in date
      order. */
  method SortByDate(rows: set<Reminder>) returns (r: seq<Reminder>)
    ensures SortedByDate(r)
    ensures multiset(r) == multiset(rows)
    ensures forall x :: x in r <==> x in rows
    ensures |r| == |rows|
  {
    var pending := rows;
    r := [];
    while pending != {}
      invariant pending <= rows
      invariant SortedByDate(r)
      invariant multiset(r) == multiset(rows - pending)
      decreases |pending|
    {
      var x :| x in pending;
      assert rows - (pending - {x}) == (rows - pending) + {x};
      r := InsertByDate(r, x);
      pending := pending - {x};
    }
    assert rows - pending == rows;
    ListsSet(r, rows);
  }
}
