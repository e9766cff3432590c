/**
 Pages by position: a list of entries read page by page, where the entry after each page
 names the position at which the next page starts.
 */
module PageWalk {
  import opened Wrappers

  datatype Path = Code(id: nat) | Resource(tag: nat) | ResourceGroup(tag: nat)

  /** A key under the account's prefix; `Malformed` is one that cannot be read as a path. */
  datatype StateKey = AccessPath(path: Path) | Malformed(raw: nat)

  datatype Entry = Entry(key: StateKey, value: nat)

  /** A request that fails does not say why. */
  datatype Error = Failed

  type Answer<T> = Result<T, Error>

  function Min(a: nat, b: nat): nat {
    if a < b then a else b
  }

  predicate Clean(items: seq<Entry>) {
    forall i :: 0 <= i < |items| ==> items[i].key.AccessPath?
  }

  /** One page followed by what the later pages gave. */
  function Then(page: seq<Entry>, later: Answer<(seq<Entry>, bool)>): Answer<(seq<Entry>, bool)> {
    if later.Err? then Err(Failed) else Ok((page + later.value.0, later.value.1))
  }

  /** `back[i]` is the position to which the cursor made from the i-th entry leads. */
  ghost predicate Positions(items: seq<Entry>, back: seq<nat>) {
    |back| == |items| && forall i :: 0 <= i < |back| ==> back[i] <= |items|
  }

  /** What a request that starts at position `p` fails on: the page and the entry after it. */
  predicate CleanPage(items: seq<Entry>, limit: nat, p: nat)
    requires p <= |items|
  {
    && Clean(items[p..Min(p + limit, |items|)])
    && (p + limit < |items| ==> items[p + limit].key.AccessPath?)
  }

  ghost function Walk(items: seq<Entry>, back: seq<nat>, limit: nat, p: nat, n: nat): Answer<(seq<Entry>, bool)>
    requires Positions(items, back) && p <= |items|
    decreases n
  {
    if n == 0 then Ok(([], false))
    else if !CleanPage(items, limit, p) then Err(Failed)
    else if |items| <= p + limit then Ok((items[p..], true))
    else
      Then(items[p..p + limit], Walk(items, back, limit, back[p + limit], n - 1))
  }

  /** Every entry at which a page ends is found again through its own cursor. */
  ghost predicate Faithful(items: seq<Entry>, back: seq<nat>, limit: nat, p: nat)
    requires Positions(items, back) && limit >= 1
    decreases |items| - p
  {
    p + limit < |items| ==> back[p + limit] == p + limit && Faithful(items, back, limit, p + limit)
  }

  lemma CleanSplit(items: seq<Entry>, limit: nat, p: nat)
    requires p + limit < |items|
    ensures Clean(items[p..]) <==> CleanPage(items, limit, p) && Clean(items[p + limit..])
  {
    var q := p + limit;
    assert items[p..] == items[p..q] + items[q..];
    if Clean(items[p..]) {
      assert items[p..q] == items[p..][..limit] && items[q..] == items[p..][limit..];
      assert items[q] == items[p..][limit];
    }
  }

  lemma PageAndRest(items: seq<Entry>, p: nat, q: nat)
    requires p <= q <= |items|
    ensures Then(items[p..q], Ok((items[q..], true))) == Ok((items[p..], true))
  {
    assert items[p..] == items[p..q] + items[q..];
  }

  /** With faithful cursors the walk lists everything, or fails on a malformed entry. */
  lemma {:induction false} FaithfulWalkComplete(items: seq<Entry>, back: seq<nat>, limit: nat, p: nat, n: nat)
    requires Positions(items, back) && limit >= 1 && p <= |items| && n > |items| - p
    requires Faithful(items, back, limit, p)
    ensures Walk(items, back, limit, p, n) == if Clean(items[p..]) then Ok((items[p..], true)) else Err(Failed)
    decreases n
  {
    var q := p + limit;
    if q < |items| {
      FaithfulWalkComplete(items, back, limit, q, n - 1);
      CleanSplit(items, limit, p);
      PageAndRest(items, p, q);
      assert CleanPage(items, limit, p) ==>
        Walk(items, back, limit, p, n) == Then(items[p..q], Walk(items, back, limit, q, n - 1));
    } else {
      assert items[p..Min(p + limit, |items|)] == items[p..];
    }
  }

  predicate Distinct(items: seq<Entry>) {
    forall i, j :: 0 <= i < j < |items| ==> items[i] != items[j]
  }

  lemma WalkStartsAt(items: seq<Entry>, back: seq<nat>, limit: nat, p: nat, n: nat)
    requires Positions(items, back) && limit >= 1 && p <= |items|
    requires Walk(items, back, limit, p, n).Ok? && Walk(items, back, limit, p, n).value.1
    ensures var out := Walk(items, back, limit, p, n).value.0;
      if p == |items| then out == [] else out != [] && out[0] == items[p]
  {}

  lemma SplitAt(items: seq<Entry>, p: nat, q: nat, rest: seq<Entry>)
    requires p <= q <= |items| && items[p..q] + rest == items[p..]
    ensures rest == items[q..]
  {
    assert rest == (items[p..q] + rest)[q - p..];
    assert items[q..] == items[p..][q - p..];
  }

  /** If the pages from `p` on list everything from `p` on, the next page starts where this
      one ends. */
  lemma CompleteWalkStep(items: seq<Entry>, back: seq<nat>, limit: nat, p: nat, n: nat)
    requires Positions(items, back) && limit >= 1 && p + limit < |items| && Distinct(items)
    requires Walk(items, back, limit, p, n) == Ok((items[p..], true))
    ensures n > 0 && CleanPage(items, limit, p) && back[p + limit] == p + limit
    ensures Walk(items, back, limit, p + limit, n - 1) == Ok((items[p + limit..], true))
  {
    var q := p + limit;
    var rest := Walk(items, back, limit, back[q], n - 1).value.0;
    SplitAt(items, p, q, rest);
    WalkStartsAt(items, back, limit, back[q], n - 1);
    assert items[q..][0] == items[q];
  }

  lemma LastPageClean(items: seq<Entry>, back: seq<nat>, limit: nat, p: nat, n: nat)
    requires Positions(items, back) && p <= |items| <= p + limit
    requires Walk(items, back, limit, p, n) == Ok((items[p..], true))
    ensures Clean(items[p..])
  {
    assert items[p..Min(p + limit, |items|)] == items[p..];
  }

  lemma {:induction false} CompleteWalkFaithful(items: seq<Entry>, back: seq<nat>, limit: nat, p: nat, n: nat)
    requires Positions(items, back) && limit >= 1 && p <= |items| && Distinct(items)
    requires Walk(items, back, limit, p, n) == Ok((items[p..], true))
    ensures Faithful(items, back, limit, p) && Clean(items[p..])
    decreases n
  {
    if p + limit < |items| {
      CompleteWalkStep(items, back, limit, p, n);
      CompleteWalkFaithful(items, back, limit, p + limit, n - 1);
      CleanSplit(items, limit, p);
    } else {
      LastPageClean(items, back, limit, p, n);
    }
  }

  // ----- Requests by cursor -----

  /** The next cursor is rebuilt from what the iterator yields: a code path for modules; for
      resources always a resource path, even when the entry is a resource group. */
  function CursorOf(key: StateKey): StateKey {
    if key.AccessPath? && key.path.ResourceGroup? then AccessPath(Resource(key.path.tag)) else key
  }

  datatype Page = Page(items: seq<Entry>, next: Option<StateKey>)

  type Pager = Option<StateKey> -> Answer<Page>

  /** What a page and the later ones give. */
  function PageThen(r: Answer<Page>, later: Answer<(seq<Entry>, bool)>): Answer<(seq<Entry>, bool)> {
    if r.Err? then Err(Failed)
    else if r.value.next.None? then Ok((r.value.items, true))
    else Then(r.value.items, later)
  }

  /** Up to `n` requests, each with the cursor the one before returned: the entries of all
      pages in order, and whether the last page was reached. */
  function FollowPages(page: Pager, cursor: Option<StateKey>, n: nat): Answer<(seq<Entry>, bool)>
    decreases n
  {
    if n == 0 then Ok(([], false))
    else
      var r := page(cursor);
      PageThen(r, if r.Ok? then FollowPages(page, r.value.next, n - 1) else Err(Failed))
  }

  /** `r` is the page of `items` at position `p`. */
  ghost predicate IsPage(items: seq<Entry>, limit: nat, p: nat, r: Answer<Page>)
    requires p <= |items|
  {
    && r.Ok? == CleanPage(items, limit, p)
    && (r.Ok? && |items| <= p + limit ==> r.value == Page(items[p..], None))
    && (r.Ok? && p + limit < |items| ==>
          r.value == Page(items[p..p + limit], Some(CursorOf(items[p + limit].key))))
  }

  /** A request with cursor `c` gives the page at the cursor's position, and its next cursor
      has the position that the entry after the page leads to. */
  ghost predicate ServesAt(items: seq<Entry>, back: seq<nat>, limit: nat, page: Pager, pos: Option<StateKey> -> nat,
    c: Option<StateKey>)
    requires Positions(items, back)
  {
    && pos(c) <= |items| && IsPage(items, limit, pos(c), page(c))
    && (page(c).Ok? && pos(c) + limit < |items| ==> pos(page(c).value.next) == back[pos(c) + limit])
  }

  lemma {:induction false} FollowWalks(items: seq<Entry>, back: seq<nat>, limit: nat, page: Pager,
    pos: Option<StateKey> -> nat, c: Option<StateKey>, n: nat)
    requires Positions(items, back) && forall c :: ServesAt(items, back, limit, page, pos, c)
    ensures pos(c) <= |items| && FollowPages(page, c, n) == Walk(items, back, limit, pos(c), n)
    decreases n
  {
    assert ServesAt(items, back, limit, page, pos, c);
    if n > 0 && page(c).Ok? {
      FollowWalks(items, back, limit, page, pos, page(c).value.next, n - 1);
    }
  }
}
