/** The element side of the element–tag join as a sequence of tag ids, and the two
    sequence operations ElementsService performs on it. Saving an element diffs its tag
    array against the stored join rows: a tag id the rows lack is inserted, a stored one the
    array lacks is deleted, and one present in both is left alone. */
module TagLinks {
  import opened Common

  /** `element.tags.filter(tag => !tagIds.includes(tag.id))`, with the requested ids as a set. */
  function Without(s: seq<Id>, drop: set<Id>): (r: seq<Id>)
    ensures |r| <= |s|
    ensures forall t :: t in r <==> t in s && t !in drop
    ensures forall t :: t !in drop ==> multiset(r)[t] == multiset(s)[t]
    ensures forall t :: t in drop ==> multiset(r)[t] == 0
  {
    if s == [] then []
    else
      var rest := Without(s[1..], drop);
      assert s == [s[0]] + s[1..];
      if s[0] in drop then rest else [s[0]] + rest
  }

  /** No id occurs twice: the join table's primary key `(element_id, tag_id)` seen from one
      element. */
  predicate Distinct(s: seq<Id>) {
    forall i, j :: 0 <= i < j < |s| ==> s[i] != s[j]
  }

  /** Filtering leaves no repeat when every repeated id is among those dropped; in
      particular it keeps a repeat-free sequence repeat-free. */
  lemma {:induction false} WithoutDistinct(s: seq<Id>, drop: set<Id>)
    requires forall i, j :: 0 <= i < j < |s| && s[i] == s[j] ==> s[i] in drop
    ensures Distinct(Without(s, drop))
  {
    if s != [] {
      var tail := s[1..];
      forall i, j | 0 <= i < j < |tail| && tail[i] == tail[j] ensures tail[i] in drop {
        assert s[i + 1] == tail[i] && s[j + 1] == tail[j];
      }
      WithoutDistinct(tail, drop);
      var rest := Without(tail, drop);
      if s[0] !in drop {
        forall k | 0 <= k < |tail| ensures tail[k] != s[0] {
          assert s[k + 1] == tail[k];
        }
        ConsDistinct(s[0], rest);
      }
    }
  }

  /** Putting an id that is not there yet in front keeps a sequence repeat-free. */
  lemma ConsDistinct(x: Id, s: seq<Id>)
    requires Distinct(s) && x !in s
    ensures Distinct([x] + s)
  {
    var r := [x] + s;
    forall i, j | 0 <= i < j < |r| ensures r[i] != r[j] {
      if i == 0 {
        assert r[j] == s[j - 1];
      } else {
        assert r[i] == s[i - 1] && r[j] == s[j - 1];
      }
    }
  }

  /** Filtering distributes over concatenation, so the kept ids stay in their original order. */
  lemma {:induction false} WithoutConcat(a: seq<Id>, b: seq<Id>, drop: set<Id>)
    ensures Without(a + b, drop) == Without(a, drop) + Without(b, drop)
  {
    if a == [] {
      assert a + b == b;
    } else {
      assert (a + b)[1..] == a[1..] + b;
      WithoutConcat(a[1..], b, drop);
    }
  }

  /** Removing ids none of which is attached changes nothing. */
  lemma {:induction false} WithoutAbsent(s: seq<Id>, drop: set<Id>)
    requires forall t :: t in drop ==> t !in s
    ensures Without(s, drop) == s
  {
    if s != [] {
      WithoutAbsent(s[1..], drop);
    }
  }

  /** Removing the same ids a second time changes nothing. */
  lemma WithoutIdempotent(s: seq<Id>, drop: set<Id>)
    ensures Without(Without(s, drop), drop) == Without(s, drop)
  {
    WithoutAbsent(Without(s, drop), drop);
  }

  /** Removing every id just added undoes the addition and also strips any earlier copy. */
  lemma RemoveAfterAdd(s: seq<Id>, added: seq<Id>, drop: set<Id>)
    requires forall t :: t in added ==> t in drop
    ensures Without(s + added, drop) == Without(s, drop)
  {
    WithoutConcat(s, added, drop);
    WithoutGone(added, drop);
  }

  /** Filtering out a superset of a sequence's ids leaves nothing. */
  lemma {:induction false} WithoutGone(s: seq<Id>, drop: set<Id>)
    requires forall t :: t in s ==> t in drop
    ensures Without(s, drop) == []
  {
    if s != [] {
      WithoutGone(s[1..], drop);
    }
  }

  /** The requested ids not linked yet, in request order: the join rows that saving
      `[...element.tags, ...tags]` inserts. */
  function Fresh(links: seq<Id>, requested: seq<Id>): (r: seq<Id>)
    ensures forall t :: t in r <==> t in requested && t !in links
  {
    Without(requested, set t | t in links)
  }

  /** The request names a not-yet-linked id twice, so the save inserts the same
      `(element_id, tag_id)` row twice and the join table's primary key refuses it. */
  predicate RepeatsFresh(links: seq<Id>, requested: seq<Id>) {
    exists i, j :: 0 <= i < j < |requested| && requested[i] == requested[j] && requested[i] !in links
  }

  /** A repeat-free link list grown by the fresh ids of a request that repeats none of them
      is still repeat-free: the save inserts each missing join row once. */
  lemma AppendFreshDistinct(links: seq<Id>, requested: seq<Id>)
    requires Distinct(links) && !RepeatsFresh(links, requested)
    ensures Distinct(links + Fresh(links, requested))
  {
    var added := Fresh(links, requested);
    WithoutDistinct(requested, set t | t in links);
    var r := links + added;
    forall i, j | 0 <= i < j < |r| ensures r[i] != r[j] {
      if j < |links| {
        assert r[i] == links[i] && r[j] == links[j];
      } else if i < |links| {
        assert r[i] == links[i] && r[j] == added[j - |links|] && r[j] in added;
      } else {
        assert r[i] == added[i - |links|] && r[j] == added[j - |links|];
      }
    }
  }

  /** Once added, the same ids are all linked: adding them again inserts nothing and cannot
      repeat a fresh id. */
  lemma AddTwiceAddsNothing(links: seq<Id>, requested: seq<Id>)
    ensures Fresh(links + Fresh(links, requested), requested) == []
    ensures !RepeatsFresh(links + Fresh(links, requested), requested)
  {
    var added := links + Fresh(links, requested);
    WithoutGone(requested, set t | t in added);
  }
}
