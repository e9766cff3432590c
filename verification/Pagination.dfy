/**
 Cursor pagination over the state of one account. The database iterates the account's
 entries in key order from a cursor on; a page keeps the entries of the requested kind and
 names, as the next cursor, a key rebuilt from the first entry that did not fit.
 */
module Pagination {
  import opened PageWalk
  import opened Sequences
  import opened Wrappers

  datatype Kind = Modules | Resources

  /** The position of keys in the database's order, which is that of byte strings: between
      two keys there can be any number of others. */
  type Order = StateKey -> real

  predicate Skipped(kind: Kind, key: StateKey) {
    key.AccessPath? && (kind.Modules? <==> !key.path.Code?)
  }

  /** What the page iterator yields: entries of the kind, and the malformed ones as errors. */
  function Filter(kind: Kind, entries: seq<Entry>): seq<Entry> {
    if entries == [] then []
    else
      var n := |entries| - 1;
      Filter(kind, entries[..n]) + if Skipped(kind, entries[n].key) then [] else [entries[n]]
  }

  /** The first position whose key is not below the cursor. */
  function Seek(order: Order, entries: seq<Entry>, cursor: Option<StateKey>): (k: nat)
    ensures k <= |entries|
  {
    if cursor.None? || entries == [] || order(entries[0].key) >= order(cursor.value) then 0
    else 1 + Seek(order, entries[1..], cursor)
  }

  /** The page made of what the iterator yields. */
  function PageOf(items: seq<Entry>, limit: nat): Answer<Page> {
    var page := items[..Min(limit, |items|)];
    if !Clean(page) then Err(Failed)
    else if |items| <= limit then Ok(Page(page, None))
    else if items[limit].key.Malformed? then Err(Failed)
    else Ok(Page(page, Some(CursorOf(items[limit].key))))
  }

  /** One request. */
  function GetPage(order: Order, kind: Kind, entries: seq<Entry>, cursor: Option<StateKey>, limit: nat): Answer<Page> {
    PageOf(Filter(kind, entries[Seek(order, entries, cursor)..]), limit)
  }

  lemma {:induction false} FilterKinds(kind: Kind, entries: seq<Entry>)
    ensures forall i :: 0 <= i < |Filter(kind, entries)| ==> !Skipped(kind, Filter(kind, entries)[i].key)
  {
    if entries != [] {
      FilterKinds(kind, entries[..|entries| - 1]);
    }
  }

  function Requests(order: Order, kind: Kind, entries: seq<Entry>, limit: nat): Pager {
    cursor => GetPage(order, kind, entries, cursor, limit)
  }

  /** Up to `n` requests, each with the cursor the one before returned. */
  function Follow(order: Order, kind: Kind, entries: seq<Entry>, limit: nat, cursor: Option<StateKey>, n: nat)
    : Answer<(seq<Entry>, bool)>
  {
    FollowPages(Requests(order, kind, entries, limit), cursor, n)
  }

  // ----- Cursors as positions -----

  predicate Before(order: Order, a: Entry, b: Entry) {
    order(a.key) < order(b.key)
  }

  /** The database's order is strict: no key occurs twice. */
  ghost predicate Ordered(order: Order, entries: seq<Entry>) {
    forall i, j :: 0 <= i < j < |entries| ==> Before(order, entries[i], entries[j])
  }

  lemma {:induction false} FilterOrdered(order: Order, kind: Kind, entries: seq<Entry>)
    requires Ordered(order, entries)
    ensures Ordered(order, Filter(kind, entries))
    ensures forall x :: x in Filter(kind, entries) ==> x in entries
  {
    if entries != [] {
      var n := |entries| - 1;
      FilterOrdered(order, kind, entries[..n]);
      var before := Filter(kind, entries[..n]);
      forall i | 0 <= i < |before| ensures Before(order, before[i], entries[n]) {
        assert before[i] in entries[..n];
      }
    }
  }

  lemma OrderedDistinct(order: Order, items: seq<Entry>)
    requires Ordered(order, items)
    ensures Distinct(items)
  {
    forall i, j | 0 <= i < j < |items| ensures items[i] != items[j] {
      assert Before(order, items[i], items[j]);
    }
  }

  lemma {:induction false} FilterAppend(kind: Kind, xs: seq<Entry>, ys: seq<Entry>)
    ensures Filter(kind, xs + ys) == Filter(kind, xs) + Filter(kind, ys)
    decreases |ys|
  {
    if ys == [] {
      assert xs + ys == xs;
    } else {
      var n := |ys| - 1;
      assert (xs + ys)[..|xs + ys| - 1] == xs + ys[..n];
      FilterAppend(kind, xs, ys[..n]);
    }
  }

  /** How many entries of the kind lie before the cursor. */
  function Position(order: Order, kind: Kind, entries: seq<Entry>, cursor: Option<StateKey>): (p: nat)
    ensures p <= |Filter(kind, entries)|
  {
    FilterFrom(kind, entries, Seek(order, entries, cursor));
    |Filter(kind, entries[..Seek(order, entries, cursor)])|
  }

  lemma FilterFrom(kind: Kind, entries: seq<Entry>, k: nat)
    requires k <= |entries|
    ensures var p, items := |Filter(kind, entries[..k])|, Filter(kind, entries);
      p <= |items| && Filter(kind, entries[k..]) == items[p..]
  {
    assert entries == entries[..k] + entries[k..];
    FilterAppend(kind, entries[..k], entries[k..]);
  }

  /** Where the cursor made from the i-th entry of the kind leads. */
  function Back(order: Order, kind: Kind, entries: seq<Entry>, i: nat): (p: nat)
    requires i < |Filter(kind, entries)|
    ensures p <= |Filter(kind, entries)|
  {
    Position(order, kind, entries, Some(CursorOf(Filter(kind, entries)[i].key)))
  }

  function Backs(order: Order, kind: Kind, entries: seq<Entry>): (back: seq<nat>)
    ensures |back| == |Filter(kind, entries)|
    ensures forall i :: 0 <= i < |back| ==> back[i] == Back(order, kind, entries, i)
    ensures Positions(Filter(kind, entries), back)
  {
    seq(|Filter(kind, entries)|, i requires 0 <= i < |Filter(kind, entries)| => Back(order, kind, entries, i))
  }

  lemma PageOfSuffix(items: seq<Entry>, p: nat, limit: nat)
    requires p <= |items|
    ensures IsPage(items, limit, p, PageOf(items[p..], limit))
  {
    var mine := items[p..];
    assert mine[..Min(limit, |mine|)] == items[p..Min(p + limit, |items|)];
    if |items| <= p + limit {
      assert items[p..Min(p + limit, |items|)] == items[p..];
    }
  }

  /** One request, by position. */
  lemma GetPageAt(order: Order, kind: Kind, entries: seq<Entry>, cursor: Option<StateKey>, limit: nat)
    ensures IsPage(Filter(kind, entries), limit, Position(order, kind, entries, cursor),
                   GetPage(order, kind, entries, cursor, limit))
  {
    FilterFrom(kind, entries, Seek(order, entries, cursor));
    PageOfSuffix(Filter(kind, entries), Position(order, kind, entries, cursor), limit);
  }

  /** Following cursors is walking positions. */
  lemma FollowIsWalk(order: Order, kind: Kind, entries: seq<Entry>, limit: nat, cursor: Option<StateKey>, n: nat)
    ensures Follow(order, kind, entries, limit, cursor, n)
      == Walk(Filter(kind, entries), Backs(order, kind, entries), limit, Position(order, kind, entries, cursor), n)
  {
    var items, back := Filter(kind, entries), Backs(order, kind, entries);
    var page, pos := Requests(order, kind, entries, limit), c => Position(order, kind, entries, c);
    forall c ensures ServesAt(items, back, limit, page, pos, c) {
      GetPageAt(order, kind, entries, c, limit);
    }
    FollowWalks(items, back, limit, page, pos, cursor, n);
  }

  lemma SeekStart(order: Order, kind: Kind, entries: seq<Entry>)
    ensures Position(order, kind, entries, None) == 0
  {
    assert entries[..0] == [];
  }

  // ----- What one page holds -----

  /** A module is code; a resource is a resource or a resource group. */
  predicate OfKind(kind: Kind, key: StateKey) {
    && key.AccessPath?
    && (kind.Modules? ==> key.path.Code?)
    && (kind.Resources? ==> key.path.Resource? || key.path.ResourceGroup?)
  }

  lemma SkippedMeaning(kind: Kind, key: StateKey)
    ensures Skipped(kind, key) <==> !(key.Malformed? || OfKind(kind, key))
  {}

  lemma FilterLast(kind: Kind, entries: seq<Entry>)
    requires entries != []
    ensures var n := |entries| - 1;
      Filter(kind, entries)
      == if Skipped(kind, entries[n].key) then Filter(kind, entries[..n])
         else Filter(kind, entries[..n]) + [entries[n]]
  {}

  lemma {:induction false} FilterCount(kind: Kind, entries: seq<Entry>, x: Entry)
    ensures Count(Filter(kind, entries), x) == if Skipped(kind, x.key) then 0 else Count(entries, x)
  {
    if entries != [] {
      var n := |entries| - 1;
      FilterCount(kind, entries[..n], x);
      FilterLast(kind, entries);
      CountMaybe(Filter(kind, entries[..n]), Filter(kind, entries), entries[n], x);
    }
  }

  /** The iterator yields every entry of the kind and every malformed one as often as it is
      stored, and nothing else. */
  lemma FilterCounts(kind: Kind, entries: seq<Entry>, x: Entry)
    ensures multiset(Filter(kind, entries))[x]
      == if x.key.Malformed? || OfKind(kind, x.key) then multiset(entries)[x] else 0
  {
    FilterCount(kind, entries, x);
    CountIsMultiplicity(Filter(kind, entries), x);
    CountIsMultiplicity(entries, x);
    SkippedMeaning(kind, x.key);
  }

  lemma FilterMeaning(kind: Kind, entries: seq<Entry>, x: Entry)
    ensures x in Filter(kind, entries) <==> x in entries && (x.key.Malformed? || OfKind(kind, x.key))
  {
    FilterCounts(kind, entries, x);
    assert x in Filter(kind, entries) <==> multiset(Filter(kind, entries))[x] > 0;
    assert x in entries <==> multiset(entries)[x] > 0;
  }

  /** At the cursor or after it. */
  predicate From(order: Order, cursor: Option<StateKey>, key: StateKey) {
    cursor.Some? ==> order(key) >= order(cursor.value)
  }

  lemma RestMeaning(order: Order, kind: Kind, entries: seq<Entry>, cursor: Option<StateKey>, x: Entry)
    requires Ordered(order, entries)
    ensures x in Filter(kind, entries[Seek(order, entries, cursor)..]) <==>
      x in entries && From(order, cursor, x.key) && (x.key.Malformed? || OfKind(kind, x.key))
  {
    var k := Seek(order, entries, cursor);
    if cursor.Some? {
      SeekSplits(order, entries, cursor.value);
    }
    assert entries == entries[..k] + entries[k..];
    FilterMeaning(kind, entries[k..], x);
  }

  /** The cursor to the entry that did not fit. */
  function NextCursor(kind: Kind, key: StateKey): StateKey
    requires OfKind(kind, key)
  {
    if kind.Modules? then AccessPath(Code(key.path.id)) else AccessPath(Resource(key.path.tag))
  }

  lemma LowerComesFirst(order: Order, items: seq<Entry>, i: nat, j: nat)
    requires Ordered(order, items) && i < |items| && j < |items|
    ensures order(items[i].key) < order(items[j].key) ==> i < j
  {
    if j < i {
      assert Before(order, items[j], items[i]);
    }
  }

  /** In terms of what the iterator yields: all of it, or what comes before the next entry. */
  lemma PageOfMeaning(order: Order, items: seq<Entry>, limit: nat)
    requires Ordered(order, items)
    ensures var r := PageOf(items, limit);
      && (r.Err? ==> exists x :: x in items && x.key.Malformed?)
      && (r.Ok? ==> |r.value.items| <= limit && r.value.items <= items && Clean(r.value.items))
      && (r.Ok? && r.value.next.None? ==> r.value.items == items)
      && (r.Ok? && r.value.next.Some? ==>
            && |r.value.items| == limit < |items| && items[limit].key.AccessPath?
            && r.value.next == Some(CursorOf(items[limit].key))
            && forall x :: x in items && order(x.key) < order(items[limit].key) ==> x in r.value.items)
  {
    var page := items[..Min(limit, |items|)];
    if !Clean(page) {
      var i :| 0 <= i < |page| && page[i].key.Malformed?;
      assert items[i] == page[i];
    } else if |items| > limit {
      forall x | x in items && order(x.key) < order(items[limit].key) ensures x in page {
        var i :| 0 <= i < |items| && items[i] == x;
        LowerComesFirst(order, items, i, limit);
        assert page[i] == x;
      }
    }
  }

  /** An entry that a request with this cursor is about. */
  predicate Candidate(order: Order, kind: Kind, entries: seq<Entry>, cursor: Option<StateKey>, x: Entry) {
    x in entries && OfKind(kind, x.key) && From(order, cursor, x.key)
  }

  /** A page lists, in order, entries of the kind from the cursor on, no more than the limit:
      all of them if there is no next cursor, and else as many as the limit, namely all before
      the entry that the next cursor is made from. */
  ghost predicate ListsFrom(order: Order, kind: Kind, entries: seq<Entry>, cursor: Option<StateKey>, limit: nat,
    page: Page)
  {
    && |page.items| <= limit && Ordered(order, page.items)
    && (forall x :: x in page.items ==> Candidate(order, kind, entries, cursor, x))
    && (page.next.None? ==> forall x :: Candidate(order, kind, entries, cursor, x) ==> x in page.items)
    && (page.next.Some? ==> |page.items| == limit && exists y ::
          && Candidate(order, kind, entries, cursor, y) && page.next == Some(NextCursor(kind, y.key))
          && forall x :: Candidate(order, kind, entries, cursor, x) && Before(order, x, y) ==> x in page.items)
  }

  lemma PageMeaning(order: Order, kind: Kind, entries: seq<Entry>, cursor: Option<StateKey>, limit: nat)
    requires Ordered(order, entries)
    ensures var r := GetPage(order, kind, entries, cursor, limit);
      && (r.Ok? ==> ListsFrom(order, kind, entries, cursor, limit, r.value))
      && (r.Err? ==> exists x :: x in entries && x.key.Malformed? && From(order, cursor, x.key))
  {
    var rest := entries[Seek(order, entries, cursor)..];
    var items := Filter(kind, rest);
    forall x ensures x in items <==>
      (x in entries && x.key.Malformed? && From(order, cursor, x.key)) || Candidate(order, kind, entries, cursor, x)
    {
      RestMeaning(order, kind, entries, cursor, x);
    }
    FilterOrdered(order, kind, rest);
    PageFromItems(order, kind, entries, cursor, limit, items);
  }

  lemma PageFromItems(order: Order, kind: Kind, entries: seq<Entry>, cursor: Option<StateKey>, limit: nat,
    items: seq<Entry>)
    requires Ordered(order, items)
    requires forall x :: x in items <==>
      (x in entries && x.key.Malformed? && From(order, cursor, x.key)) || Candidate(order, kind, entries, cursor, x)
    ensures var r := PageOf(items, limit);
      && (r.Ok? ==> ListsFrom(order, kind, entries, cursor, limit, r.value))
      && (r.Err? ==> exists x :: x in entries && x.key.Malformed? && From(order, cursor, x.key))
  {
    PageOfMeaning(order, items, limit);
    var r := PageOf(items, limit);
    if r.Ok? {
      forall x | x in r.value.items ensures Candidate(order, kind, entries, cursor, x) {
        var i :| 0 <= i < |r.value.items| && r.value.items[i] == x;
        assert items[i] == x;
      }
      if r.value.next.Some? {
        assert items[limit] in items;
        assert Candidate(order, kind, entries, cursor, items[limit]);
      }
    }
  }

  // ----- When following cursors visits every entry once -----

  lemma FaithfulFollow(order: Order, kind: Kind, entries: seq<Entry>, limit: nat, n: nat)
    requires limit >= 1 && Faithful(Filter(kind, entries), Backs(order, kind, entries), limit, 0)
    requires n > |Filter(kind, entries)|
    ensures var items := Filter(kind, entries);
      Follow(order, kind, entries, limit, None, n) == if Clean(items) then Ok((items, true)) else Err(Failed)
  {
    var items, back := Filter(kind, entries), Backs(order, kind, entries);
    FollowIsWalk(order, kind, entries, limit, None, n);
    SeekStart(order, kind, entries);
    FaithfulWalkComplete(items, back, limit, 0, n);
    assert items[0..] == items;
  }

  /** In terms of positions: following cursors from the start ends with every entry listed
      once and in order if and only if no entry is malformed and every entry at which a page
      ends is found again through its own cursor. */
  lemma PaginationByPosition(order: Order, kind: Kind, entries: seq<Entry>, limit: nat)
    requires limit >= 1 && Ordered(order, entries)
    ensures (exists n :: Follow(order, kind, entries, limit, None, n) == Ok((Filter(kind, entries), true)))
      <==> Clean(Filter(kind, entries)) && Faithful(Filter(kind, entries), Backs(order, kind, entries), limit, 0)
  {
    var items, back := Filter(kind, entries), Backs(order, kind, entries);
    if Clean(items) && Faithful(items, back, limit, 0) {
      FaithfulFollow(order, kind, entries, limit, |items| + 1);
    }
    SeekStart(order, kind, entries);
    assert items[0..] == items;
    if n :| Follow(order, kind, entries, limit, None, n) == Ok((items, true)) {
      FollowIsWalk(order, kind, entries, limit, None, n);
      FilterOrdered(order, kind, entries);
      OrderedDistinct(order, items);
      CompleteWalkFaithful(items, back, limit, 0, n);
    }
  }

  /** A cursor splits the entries into those below it and those that are not. */
  lemma {:induction false} SeekSplits(order: Order, entries: seq<Entry>, c: StateKey)
    requires Ordered(order, entries)
    ensures var k := Seek(order, entries, Some(c));
      && (forall x :: x in entries[..k] ==> order(x.key) < order(c))
      && (forall x :: x in entries[k..] ==> order(x.key) >= order(c))
  {
    var k := Seek(order, entries, Some(c));
    if k > 0 {
      SeekSplits(order, entries[1..], c);
      assert entries[..k] == [entries[0]] + entries[1..][..k - 1];
      assert entries[k..] == entries[1..][k - 1..];
    } else if entries != [] {
      forall x | x in entries ensures order(x.key) >= order(c) {
        var i :| 0 <= i < |entries| && entries[i] == x;
        assert i == 0 || Before(order, entries[0], entries[i]);
      }
    }
  }

  /** The cursor of the q-th entry falls between the entry before it and the entry itself. */
  predicate Between(order: Order, items: seq<Entry>, q: nat)
    requires q < |items|
  {
    var c := CursorOf(items[q].key);
    order(c) <= order(items[q].key) && (q > 0 ==> order(items[q - 1].key) < order(c))
  }

  /** The cursor of the q-th entry leads back to it exactly when it falls between the entry
      before it and the entry itself. */
  lemma LeadsBackExactly(order: Order, kind: Kind, entries: seq<Entry>, q: nat)
    requires Ordered(order, entries) && q < |Filter(kind, entries)|
    ensures Back(order, kind, entries, q) == q <==> Between(order, Filter(kind, entries), q)
  {
    var items, c := Filter(kind, entries), CursorOf(Filter(kind, entries)[q].key);
    var k, p := Seek(order, entries, Some(c)), Position(order, kind, entries, Some(c));
    SeekSplits(order, entries, c);
    FilterFrom(kind, entries, k);
    FilterPrefix(kind, entries, k);
    FilterMembers(kind, entries[..k]);
    FilterMembers(kind, entries[k..]);
    assert p <= q ==> items[q] == items[p..][q - p];
    assert p > q ==> items[q] == items[..p][q];
    assert q > 0 && p >= q ==> items[q - 1] == items[..p][q - 1];
    assert q > 0 && p < q ==> items[q - 1] == items[p..][q - 1 - p];
  }

  /** The cursor of every entry at which a page ends falls between its neighbours. */
  ghost predicate CursorsBetween(order: Order, items: seq<Entry>, limit: nat, p: nat)
    requires limit >= 1
    decreases |items| - p
  {
    p + limit < |items| ==> Between(order, items, p + limit) && CursorsBetween(order, items, limit, p + limit)
  }

  lemma {:induction false} FaithfulExactly(order: Order, items: seq<Entry>, back: seq<nat>, limit: nat, p: nat)
    requires limit >= 1 && Positions(items, back)
    requires forall q :: 0 <= q < |items| ==> (back[q] == q <==> Between(order, items, q))
    ensures Faithful(items, back, limit, p) <==> CursorsBetween(order, items, limit, p)
    decreases |items| - p
  {
    if p + limit < |items| {
      FaithfulExactly(order, items, back, limit, p + limit);
    }
  }

  /** Following cursors from the start ends with every entry listed once and in order if and
      only if no entry is malformed and, wherever a page ends, the database orders the cursor
      after the last entry of the page and not after the entry it stands for. */
  lemma PaginationExactly(order: Order, kind: Kind, entries: seq<Entry>, limit: nat)
    requires limit >= 1 && Ordered(order, entries)
    ensures (exists n :: Follow(order, kind, entries, limit, None, n) == Ok((Filter(kind, entries), true)))
      <==> Clean(Filter(kind, entries)) && CursorsBetween(order, Filter(kind, entries), limit, 0)
  {
    var items, back := Filter(kind, entries), Backs(order, kind, entries);
    PaginationByPosition(order, kind, entries, limit);
    forall q | 0 <= q < |items| ensures back[q] == q <==> Between(order, items, q) {
      LeadsBackExactly(order, kind, entries, q);
    }
    FaithfulExactly(order, items, back, limit, 0);
  }

  // ----- Resources and groups in the order of their encoded keys -----

  function KeyOf(group: bool, tag: nat): StateKey {
    AccessPath(if group then ResourceGroup(tag) else Resource(tag))
  }

  /** A key is encoded as the length of its path, then the kind, then the tag; the resource and
      the group of one tag have paths of the same length. `rank` is the position of a tag's
      encoded length among the encoded lengths, whose order as bytes is not that of the numbers
      they stand for. Among paths of one length, resources come before groups. With a constant
      `rank` all resources come before all groups. */
  ghost predicate ByLength(order: Order, rank: nat -> nat) {
    && (forall g, s, h, t {:trigger order(KeyOf(g, s)), order(KeyOf(h, t))} ::
          rank(s) < rank(t) ==> order(KeyOf(g, s)) < order(KeyOf(h, t)))
    && (forall s, t {:trigger order(KeyOf(false, s)), order(KeyOf(true, t))} ::
          rank(s) == rank(t) ==> order(KeyOf(false, s)) < order(KeyOf(true, t)))
  }

  predicate IsGroup(key: StateKey) {
    key.AccessPath? && key.path.ResourceGroup?
  }

  predicate IsResource(key: StateKey) {
    key.AccessPath? && key.path.Resource?
  }

  /** A group at which a page ends comes after a path of an earlier length, or it is the first
      group of its length and its tag, taken for a resource's, comes after the last resource. */
  predicate FirstGroupAbove(order: Order, rank: nat -> nat, items: seq<Entry>, q: nat)
    requires 0 < q < |items|
  {
    var last, end := items[q - 1].key, items[q].key;
    IsGroup(end) ==>
      || (IsGroup(last) && rank(last.path.tag) < rank(end.path.tag))
      || (IsResource(last) && order(last) < order(KeyOf(false, end.path.tag)))
  }

  ghost predicate FirstGroupsAbove(order: Order, rank: nat -> nat, items: seq<Entry>, limit: nat, p: nat)
    requires limit >= 1
    decreases |items| - p
  {
    p + limit < |items| ==>
      FirstGroupAbove(order, rank, items, p + limit) && FirstGroupsAbove(order, rank, items, limit, p + limit)
  }

  ghost predicate AllResources(items: seq<Entry>) {
    forall i :: 0 <= i < |items| ==> IsResource(items[i].key) || IsGroup(items[i].key)
  }

  lemma BetweenByTag(order: Order, rank: nat -> nat, items: seq<Entry>, q: nat)
    requires ByLength(order, rank) && Ordered(order, items) && 0 < q < |items| && AllResources(items)
    ensures Between(order, items, q) <==> FirstGroupAbove(order, rank, items, q)
  {
    assert Before(order, items[q - 1], items[q]);
    var last, end := items[q - 1].key, items[q].key;
    assert end == KeyOf(IsGroup(end), end.path.tag) && last == KeyOf(IsGroup(last), last.path.tag);
    if IsGroup(end) {
      assert order(KeyOf(false, end.path.tag)) < order(KeyOf(true, end.path.tag));
      assert CursorOf(end) == KeyOf(false, end.path.tag);
    }
  }

  lemma {:induction false} BetweenByTags(order: Order, rank: nat -> nat, items: seq<Entry>, limit: nat, p: nat)
    requires ByLength(order, rank) && Ordered(order, items) && limit >= 1 && AllResources(items)
    ensures CursorsBetween(order, items, limit, p) <==> FirstGroupsAbove(order, rank, items, limit, p)
    decreases |items| - p
  {
    if p + limit < |items| {
      BetweenByTag(order, rank, items, p + limit);
      BetweenByTags(order, rank, items, limit, p + limit);
    }
  }

  /** In the order of encoded keys, an account's resources are listed completely if and only if
      none is malformed and every group at which a page ends is the first of its length, with a
      tag above that of the last resource of that length. */
  lemma ResourcesExactly(order: Order, rank: nat -> nat, entries: seq<Entry>, limit: nat)
    requires limit >= 1 && Ordered(order, entries) && ByLength(order, rank)
    ensures (exists n :: Follow(order, Resources, entries, limit, None, n) == Ok((Filter(Resources, entries), true)))
      <==> Clean(Filter(Resources, entries)) && FirstGroupsAbove(order, rank, Filter(Resources, entries), limit, 0)
  {
    PaginationExactly(order, Resources, entries, limit);
    FilterOrdered(order, Resources, entries);
    FilterKinds(Resources, entries);
    if Clean(Filter(Resources, entries)) {
      BetweenByTags(order, rank, Filter(Resources, entries), limit, 0);
    }
  }

  lemma FilterPrefix(kind: Kind, entries: seq<Entry>, k: nat)
    requires k <= |entries|
    ensures Filter(kind, entries[..k]) <= Filter(kind, entries)
  {
    assert entries == entries[..k] + entries[k..];
    FilterAppend(kind, entries[..k], entries[k..]);
  }

  lemma {:induction false} FilterMembers(kind: Kind, entries: seq<Entry>)
    ensures forall x :: x in Filter(kind, entries) ==> x in entries
  {
    if entries != [] {
      FilterMembers(kind, entries[..|entries| - 1]);
    }
  }

  // ----- Cursors that are the entry's own key -----

  lemma {:induction false} SeekOwnKey(order: Order, entries: seq<Entry>, i: nat)
    requires Ordered(order, entries) && i < |entries|
    ensures Seek(order, entries, Some(entries[i].key)) == i
  {
    if i > 0 {
      assert Before(order, entries[0], entries[i]);
      SeekOwnKey(order, entries[1..], i - 1);
    }
  }

  lemma {:induction false} FilterIndex(kind: Kind, entries: seq<Entry>, q: nat) returns (i: nat)
    requires q < |Filter(kind, entries)|
    ensures i < |entries| && entries[i] == Filter(kind, entries)[q] && |Filter(kind, entries[..i])| == q
  {
    var n := |entries| - 1;
    if q < |Filter(kind, entries[..n])| {
      i := FilterIndex(kind, entries[..n], q);
      assert entries[..n][..i] == entries[..i];
    } else {
      i := n;
    }
  }

  predicate HasGroups(entries: seq<Entry>) {
    exists i :: 0 <= i < |entries| && entries[i].key.AccessPath? && entries[i].key.path.ResourceGroup?
  }

  lemma OwnKeyLeadsBack(order: Order, kind: Kind, entries: seq<Entry>, q: nat)
    requires Ordered(order, entries) && q < |Filter(kind, entries)|
    requires kind.Resources? ==> !HasGroups(entries)
    ensures Back(order, kind, entries, q) == q
  {
    var i := FilterIndex(kind, entries, q);
    FilterKinds(kind, entries);
    assert CursorOf(entries[i].key) == entries[i].key;
    SeekOwnKey(order, entries, i);
  }

  lemma {:induction false} IdentityFaithful(items: seq<Entry>, back: seq<nat>, limit: nat, p: nat)
    requires Positions(items, back) && limit >= 1 && forall i :: 0 <= i < |back| ==> back[i] == i
    ensures Faithful(items, back, limit, p)
    decreases |items| - p
  {
    if p + limit < |items| {
      IdentityFaithful(items, back, limit, p + limit);
    }
  }

  lemma {:induction false} FilterShorter(kind: Kind, entries: seq<Entry>)
    ensures |Filter(kind, entries)| <= |entries|
  {
    if entries != [] {
      FilterShorter(kind, entries[..|entries| - 1]);
    }
  }

  lemma ListingMeaning(order: Order, kind: Kind, entries: seq<Entry>)
    requires Ordered(order, entries)
    ensures var items := Filter(kind, entries);
      && Ordered(order, items)
      && (Clean(items) <==> forall x :: x in entries ==> x.key.AccessPath?)
      && (Clean(items) ==> forall x :: x in items <==> x in entries && OfKind(kind, x.key))
  {
    var items := Filter(kind, entries);
    FilterOrdered(order, kind, entries);
    forall x ensures x in items <==> x in entries && (x.key.Malformed? || OfKind(kind, x.key)) {
      FilterMeaning(kind, entries, x);
    }
    if !Clean(items) {
      var i :| 0 <= i < |items| && items[i].key.Malformed?;
      assert items[i] in items;
    }
  }

  /** Modules always, and resources of an account without resource groups: within one request
      more than there are entries, the pages come to an end, and list in order every entry of
      the kind and no other; the listing fails exactly if some entry is malformed. */
  lemma PaginationComplete(order: Order, kind: Kind, entries: seq<Entry>, limit: nat)
    requires limit >= 1 && Ordered(order, entries)
    requires kind.Resources? ==> !HasGroups(entries)
    ensures var r := Follow(order, kind, entries, limit, None, |entries| + 1);
      && (r.Ok? <==> forall x :: x in entries ==> x.key.AccessPath?)
      && (r.Ok? ==> r.value.1 && Ordered(order, r.value.0))
      && (r.Ok? ==> forall x :: x in r.value.0 <==> x in entries && OfKind(kind, x.key))
  {
    OwnKeysFollow(order, kind, entries, limit);
    ListingMeaning(order, kind, entries);
  }

  lemma OwnKeysLeadBack(order: Order, kind: Kind, entries: seq<Entry>)
    requires Ordered(order, entries) && (kind.Resources? ==> !HasGroups(entries))
    ensures var back := Backs(order, kind, entries); forall i :: 0 <= i < |back| ==> back[i] == i
  {
    forall i | 0 <= i < |Backs(order, kind, entries)| ensures Backs(order, kind, entries)[i] == i {
      OwnKeyLeadsBack(order, kind, entries, i);
    }
  }

  lemma OwnKeysFaithful(order: Order, kind: Kind, entries: seq<Entry>, limit: nat)
    requires limit >= 1 && Ordered(order, entries) && (kind.Resources? ==> !HasGroups(entries))
    ensures Faithful(Filter(kind, entries), Backs(order, kind, entries), limit, 0)
  {
    OwnKeysLeadBack(order, kind, entries);
    IdentityFaithful(Filter(kind, entries), Backs(order, kind, entries), limit, 0);
  }

  lemma OwnKeysFollow(order: Order, kind: Kind, entries: seq<Entry>, limit: nat)
    requires limit >= 1 && Ordered(order, entries)
    requires kind.Resources? ==> !HasGroups(entries)
    ensures var items := Filter(kind, entries);
      Follow(order, kind, entries, limit, None, |entries| + 1)
      == if Clean(items) then Ok((items, true)) else Err(Failed)
  {
    OwnKeysFaithful(order, kind, entries, limit);
    FilterShorter(kind, entries);
    FaithfulFollow(order, kind, entries, limit, |entries| + 1);
  }

  // ----- Resource groups -----

  /** A number below one that grows with `tag`. */
  function Fraction(tag: nat): (x: real)
    ensures 0.0 <= x < 1.0
  {
    1.0 - 1.0 / (tag as real + 1.0)
  }

  /** Code, then resources, then groups, each by tag: the order of paths of one length. */
  function TagOrder(k: StateKey): real {
    match k
    case AccessPath(Code(id)) => Fraction(id)
    case AccessPath(Resource(tag)) => 1.0 + Fraction(tag)
    case AccessPath(ResourceGroup(tag)) => 2.0 + Fraction(tag)
    case Malformed(raw) => 3.0 + Fraction(raw)
  }

  function GroupAccount(): seq<Entry> {
    [Entry(AccessPath(Resource(5)), 0), Entry(AccessPath(ResourceGroup(3)), 1)]
  }

  lemma GroupAccountItems()
    ensures Filter(Resources, GroupAccount()) == GroupAccount()
  {
    var entries := GroupAccount();
    assert entries[..1] == [entries[0]] && entries[..1][..0] == [];
    assert Filter(Resources, []) == [];
    assert Filter(Resources, [entries[0]]) == [entries[0]];
  }

  /** From the start, and from the cursor of the group, the first page is the resource. */
  lemma GroupAccountPage(cursor: Option<StateKey>)
    requires cursor == None || cursor == Some(AccessPath(Resource(3)))
    ensures GetPage(TagOrder, Resources, GroupAccount(), cursor, 1)
      == Ok(Page([GroupAccount()[0]], Some(AccessPath(Resource(3)))))
  {
    var entries := GroupAccount();
    GroupAccountItems();
    assert Seek(TagOrder, entries, cursor) == 0;
    assert entries[0..] == entries && entries[..Min(1, 2)] == [entries[0]];
  }

  lemma {:induction false} GroupCursorReturns(n: nat, cursor: Option<StateKey>)
    requires cursor == None || cursor == Some(AccessPath(Resource(3)))
    ensures var r := Follow(TagOrder, Resources, GroupAccount(), 1, cursor, n); r.Ok? && !r.value.1
    decreases n
  {
    if n > 0 {
      GroupAccountPage(cursor);
      GroupCursorReturns(n - 1, Some(AccessPath(Resource(3))));
    }
  }

  /** An account with one resource and one resource group whose tag is smaller: at page size
      one the cursor of the group leads back to the resource, and no number of requests
      reaches the end. */
  lemma GroupCursorLoops(n: nat)
    ensures ByLength(TagOrder, tag => 0) && Ordered(TagOrder, GroupAccount())
    ensures var r := Follow(TagOrder, Resources, GroupAccount(), 1, None, n); r.Ok? && !r.value.1
  {
    GroupCursorReturns(n, None);
  }

  // ----- Expanding groups -----

  /** The resources an entry stands for; a group's value may fail to decode. */
  type Decoder<!T> = Entry -> Answer<seq<T>>

  function Expand<T>(f: Decoder<T>, items: seq<Entry>): Answer<seq<T>> {
    if items == [] then Ok([])
    else
      var before, last := Expand(f, items[..|items| - 1]), f(items[|items| - 1]);
      if before.Err? || last.Err? then Err(Failed) else Ok(before.value + last.value)
  }

  lemma {:induction false} ExpandAppend<T>(f: Decoder<T>, xs: seq<Entry>, ys: seq<Entry>)
    ensures var x, y := Expand(f, xs), Expand(f, ys);
      Expand(f, xs + ys) == if x.Err? || y.Err? then Err(Failed) else Ok(x.value + y.value)
    decreases |ys|
  {
    if ys == [] {
      assert xs + ys == xs;
      assert Expand(f, xs).Ok? ==> Expand(f, xs).value + [] == Expand(f, xs).value;
    } else {
      var n := |ys| - 1;
      assert (xs + ys)[..|xs + ys| - 1] == xs + ys[..n];
      ExpandAppend(f, xs, ys[..n]);
      var x, y, last := Expand(f, xs), Expand(f, ys[..n]), f(ys[n]);
      if x.Ok? && y.Ok? && last.Ok? {
        assert x.value + y.value + last.value == x.value + (y.value + last.value);
      }
    }
  }

  lemma ExpandOne<T>(f: Decoder<T>, x: Entry)
    ensures Expand(f, [x]) == f(x)
  {
    assert [x][..0] == [] && Expand(f, []) == Ok([]);
    assert f(x).Ok? ==> [] + f(x).value == f(x).value;
    assert f(x).Err? ==> f(x).error == Failed;
  }

  /** Up to `n` requests, each page expanded before its cursor is followed. */
  function FollowExpanded<T>(f: Decoder<T>, page: Pager, cursor: Option<StateKey>, n: nat): Answer<(seq<T>, bool)>
    decreases n
  {
    if n == 0 then Ok(([], false))
    else
      var r := page(cursor);
      if r.Err? then Err(Failed)
      else
        var expanded := Expand(f, r.value.items);
        if expanded.Err? then Err(Failed)
        else if r.value.next.None? then Ok((expanded.value, true))
        else
          var later := FollowExpanded(f, page, r.value.next, n - 1);
          if later.Err? then Err(Failed) else Ok((expanded.value + later.value.0, later.value.1))
  }

  /** What was listed, expanded as a whole. */
  function ExpandAll<T>(f: Decoder<T>, listed: Answer<(seq<Entry>, bool)>): Answer<(seq<T>, bool)> {
    if listed.Err? then Err(Failed)
    else
      var all := Expand(f, listed.value.0);
      if all.Err? then Err(Failed) else Ok((all.value, listed.value.1))
  }

  lemma ExpandThen<T>(f: Decoder<T>, page: seq<Entry>, later: Answer<(seq<Entry>, bool)>)
    ensures var x, y := Expand(f, page), ExpandAll(f, later);
      ExpandAll(f, Then(page, later)) == if x.Err? || y.Err? then Err(Failed) else Ok((x.value + y.value.0, y.value.1))
  {
    if later.Ok? {
      ExpandAppend(f, page, later.value.0);
    }
  }

  /** Expanding groups page by page while following cursors gives what expanding the whole
      listing would, failures of decoding and of listing included. */
  lemma {:induction false} ExpandedPages<T>(f: Decoder<T>, page: Pager, cursor: Option<StateKey>, n: nat)
    ensures FollowExpanded(f, page, cursor, n) == ExpandAll(f, FollowPages(page, cursor, n))
    decreases n
  {
    if n > 0 && page(cursor).Ok? {
      var r := page(cursor).value;
      ExpandedPages(f, page, r.next, n - 1);
      ExpandThen(f, r.items, FollowPages(page, r.next, n - 1));
    }
  }

  /** In the order of encoded keys, under the condition for a complete listing, the pages come
      to all the account's resources, those inside groups included, or to a failure if some
      group cannot be decoded. */
  lemma ExpandedResources<T>(f: Decoder<T>, order: Order, rank: nat -> nat, entries: seq<Entry>, limit: nat)
    requires limit >= 1 && Ordered(order, entries) && ByLength(order, rank)
    requires Clean(Filter(Resources, entries)) && FirstGroupsAbove(order, rank, Filter(Resources, entries), limit, 0)
    ensures exists n ::
      FollowExpanded(f, Requests(order, Resources, entries, limit), None, n)
      == ExpandAll(f, Ok((Filter(Resources, entries), true)))
  {
    ResourcesExactly(order, rank, entries, limit);
    var n :| Follow(order, Resources, entries, limit, None, n) == Ok((Filter(Resources, entries), true));
    ExpandedPages(f, Requests(order, Resources, entries, limit), None, n);
  }

  // ----- Page parameters -----

  /** A limit is never above the maximum nor above what was asked for, and it is positive,
      as following cursors needs, exactly when the maximum is; asking for nothing fails. */
  function DetermineLimit(requested: Option<nat>, default: nat, max: nat): (r: Answer<nat>)
    ensures r.Err? <==> requested == Some(0) || (requested.None? && default == 0)
    ensures r.Ok? ==> r.value <= max && (requested.Some? ==> r.value <= requested.value)
    ensures r.Ok? ==> (r.value >= 1 <==> max >= 1)
    ensures r.Ok? && r.value < max ==> r.value == if requested.Some? then requested.value else default
  {
    var limit := if requested.Some? then requested.value else default;
    if limit == 0 then Err(Failed) else if limit > max then Ok(max) else Ok(limit)
  }

  function SaturatingSub(a: nat, b: nat): nat {
    if a < b then 0 else a - b
  }

  /** Without a start the page is the last one: it ends at `max` and is full unless it
      begins at zero. A start beyond `max` is refused. */
  function ComputeStart(start: Option<nat>, limit: nat, max: nat): (r: Answer<nat>)
    ensures start.None? && limit >= 1 ==> r.Ok? && max + 1 - r.value == Min(limit, max + 1)
    ensures start.Some? ==> r == if start.value <= max then Ok(start.value) else Err(Failed)
  {
    var s := if start.Some? then start.value else SaturatingSub(max, SaturatingSub(limit, 1));
    if s > max then Err(Failed) else Ok(s)
  }
}
