/** Keyset paging: sorted pages of a set of keys, each starting after the last key of the previous one. */
module Keyset {
  import opened Common

  /** Rows are ordered by two columns, the second of which is unique. */
  datatype Key = Key(major: int, minor: int)

  predicate Less(a: Key, b: Key) { a.major < b.major || (a.major == b.major && a.minor < b.minor) }

  predicate Ascending(s: seq<Key>) { forall i, j :: 0 <= i < j < |s| ==> Less(s[i], s[j]) }

  predicate IsLeast(keys: set<Key>, k: Key) { k in keys && forall l :: l in keys ==> l == k || Less(k, l) }

  lemma {:induction false} LeastExists(keys: set<Key>)
    requires keys != {}
    ensures exists k :: IsLeast(keys, k)
  {
    var k :| k in keys;
    var rest := keys - {k};
    if rest == {} {
      forall l | l in keys ensures l == k {
        assert l !in rest;
      }
      assert IsLeast(keys, k);
    } else {
      LeastExists(rest);
      var l :| IsLeast(rest, l);
      var least := if Less(k, l) then k else l;
      forall m | m in keys ensures m == least || Less(least, m) {
        assert m == k || m in rest;
      }
      assert IsLeast(keys, least);
    }
  }

  /** `ORDER BY major, minor`. */
  function Sorted(keys: set<Key>): (s: seq<Key>)
    ensures Ascending(s)
    ensures forall k :: k in s <==> k in keys
    ensures |s| == |keys|
  {
    if keys == {} then []
    else
      LeastExists(keys);
      var k :| IsLeast(keys, k);
      var rest := Sorted(keys - {k});
      assert forall l :: l in keys <==> l == k || l in keys - {k};
      [k] + rest
  }

  lemma AscendingTail(s: seq<Key>, k: Key)
    requires Ascending(s) && s != []
    ensures Ascending(s[1..]) && (k in s[1..] <==> k in s && k != s[0])
  {
    assert s == [s[0]] + s[1..];
    if k in s[1..] {
      var i :| 1 <= i < |s| && s[i] == k;
      assert Less(s[0], s[i]);
    }
  }

  /** Two ascending sequences of the same keys are the same. */
  lemma {:induction false} AscendingUnique(s: seq<Key>, t: seq<Key>)
    requires Ascending(s) && Ascending(t) && forall k :: k in s <==> k in t
    ensures s == t
  {
    assert t != [] ==> t[0] in s;
    assert s != [] ==> s[0] in t;
    if s != [] {
      assert s[0] == t[0];
      forall k ensures k in s[1..] <==> k in t[1..] {
        AscendingTail(s, k);
        AscendingTail(t, k);
      }
      AscendingUnique(s[1..], t[1..]);
    }
  }

  /** The keys after a cursor. */
  function After(keys: set<Key>, cursor: Option<Key>): set<Key> {
    set k | k in keys && (cursor.Some? ==> Less(cursor.value, k))
  }

  function Take(s: seq<Key>, limit: nat): seq<Key> { if |s| <= limit then s else s[..limit] }

  /** One page: the first keys after the cursor. */
  function Page(keys: set<Key>, cursor: Option<Key>, limit: nat): (page: seq<Key>)
    ensures Ascending(page) && |page| <= limit
    ensures forall k :: k in page ==> k in After(keys, cursor)
  {
    Take(Sorted(After(keys, cursor)), limit)
  }

  /** A key that comes before the last one of a page, and after the cursor, is on the page. */
  lemma PageIsPrefix(keys: set<Key>, cursor: Option<Key>, limit: nat, k: Key)
    requires k in After(keys, cursor)
    requires var page := Page(keys, cursor, limit); |page| < limit || (page != [] && !Less(page[|page| - 1], k))
    ensures k in Page(keys, cursor, limit)
  {
    var all := Sorted(After(keys, cursor));
    var i :| 0 <= i < |all| && all[i] == k;
    if i < limit {
      assert Page(keys, cursor, limit)[i] == k;
    }
  }

  /** The keys that remain after a full page are those after its last key. */
  lemma AfterPage(keys: set<Key>, cursor: Option<Key>, limit: nat)
    requires Page(keys, cursor, limit) != []
    ensures var page := Page(keys, cursor, limit);
            After(keys, Some(page[|page| - 1])) == (set k | k in After(keys, cursor) && k !in page)
  {
    var page := Page(keys, cursor, limit);
    var last := page[|page| - 1];
    assert last in After(keys, cursor);
    forall k | k in keys ensures Less(last, k) <==> k in After(keys, cursor) && k !in page {
      if k in page {
        var i :| 0 <= i < |page| && page[i] == k;
        assert i < |page| - 1 ==> Less(page[i], last);
      } else if k in After(keys, cursor) && !Less(last, k) {
        PageIsPrefix(keys, cursor, limit, k);
      }
    }
  }

  /** All pages in order: a page shorter than the limit is the last one. */
  function Pages(keys: set<Key>, cursor: Option<Key>, limit: nat): seq<Key>
    decreases |After(keys, cursor)|
  {
    var page := Page(keys, cursor, limit);
    if page == [] || |page| < limit then page
    else
      AfterPage(keys, cursor, limit);
      AfterShrinks(keys, cursor, limit);
      page + Pages(keys, Some(page[|page| - 1]), limit)
  }

  lemma AfterShrinks(keys: set<Key>, cursor: Option<Key>, limit: nat)
    requires Page(keys, cursor, limit) != []
    ensures var page := Page(keys, cursor, limit);
            |After(keys, Some(page[|page| - 1]))| < |After(keys, cursor)|
  {
    var page := Page(keys, cursor, limit);
    AfterPage(keys, cursor, limit);
    assert page[|page| - 1] in After(keys, cursor) && page[|page| - 1] in page;
    var rest := After(keys, Some(page[|page| - 1]));
    assert rest <= After(keys, cursor) - {page[|page| - 1]};
    SubsetSize(rest, After(keys, cursor) - {page[|page| - 1]});
  }

  lemma {:induction false} SubsetSize(a: set<Key>, b: set<Key>)
    requires a <= b
    ensures |a| <= |b|
  {
    if a != {} {
      var k :| k in a;
      SubsetSize(a - {k}, b - {k});
    }
  }

  lemma NotInBoth(all: seq<Key>, n: nat, k: Key)
    requires Ascending(all) && n <= |all|
    ensures !(k in all[..n] && k in all[n..])
  {
    forall i, j | 0 <= i < n <= j < |all| ensures all[i] != all[j] {
      assert Less(all[i], all[j]);
    }
  }

  lemma SortedSplit(all: seq<Key>, n: nat, rest: set<Key>)
    requires Ascending(all) && n <= |all| && forall k :: k in rest <==> k in all && k !in all[..n]
    ensures all == all[..n] + Sorted(rest)
  {
    assert all == all[..n] + all[n..];
    forall k ensures k in all[n..] <==> k in Sorted(rest) {
      NotInBoth(all, n, k);
    }
    AscendingUnique(all[n..], Sorted(rest));
  }

  /** What is left of the sorted keys after a full page are the sorted keys after its last one. */
  lemma SortedAfterPage(keys: set<Key>, cursor: Option<Key>, limit: nat)
    requires Page(keys, cursor, limit) != []
    ensures var page := Page(keys, cursor, limit);
            Sorted(After(keys, cursor)) == page + Sorted(After(keys, Some(page[|page| - 1])))
  {
    var page := Page(keys, cursor, limit);
    AfterPage(keys, cursor, limit);
    SortedSplit(Sorted(After(keys, cursor)), |page|, After(keys, Some(page[|page| - 1])));
  }

  lemma PartialPage(keys: set<Key>, cursor: Option<Key>, limit: nat)
    requires limit >= 1 && |Page(keys, cursor, limit)| < limit
    ensures Page(keys, cursor, limit) == Sorted(After(keys, cursor))
  {
  }

  lemma PagesNext(keys: set<Key>, cursor: Option<Key>, limit: nat)
    requires Page(keys, cursor, limit) != [] && |Page(keys, cursor, limit)| >= limit
    ensures var page := Page(keys, cursor, limit);
            Pages(keys, cursor, limit) == page + Pages(keys, Some(page[|page| - 1]), limit)
  {
  }

  /** Following the pages yields every key after the cursor, in order, each once. */
  lemma {:induction false} PagesAreComplete(keys: set<Key>, cursor: Option<Key>, limit: nat)
    requires limit >= 1
    ensures Pages(keys, cursor, limit) == Sorted(After(keys, cursor))
    decreases |After(keys, cursor)|
  {
    var page := Page(keys, cursor, limit);
    if |page| < limit {
      PartialPage(keys, cursor, limit);
    } else {
      AfterShrinks(keys, cursor, limit);
      SortedAfterPage(keys, cursor, limit);
      PagesNext(keys, cursor, limit);
      PagesAreComplete(keys, Some(page[|page| - 1]), limit);
    }
  }
}
