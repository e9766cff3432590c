/**
 Rendering transactions with the timestamp of their block: one pass that carries a running
 timestamp, taken from the block metadata transactions it meets, and one lookup per version
 in the database's table of new-block events. The two read different data; they agree as far
 as the metadata and the events mark the same blocks.
 */
module Rendering {
  import opened Wrappers

  datatype Transaction = BlockMetadata(timestamp: nat) | Other(payload: nat)

  datatype OnChain = OnChain(version: nat, transaction: Transaction)

  datatype Error = Pruned | Future | NoBlock | Conversion(code: nat)

  type Result<T> = Wrappers.Result<T, Error>

  /** The transactions by version, the time of each new-block event by the version that
      emitted it, and the oldest version that can still be read. */
  datatype Ledger = Ledger(transactions: seq<Transaction>, blocks: map<nat, nat>, oldest: nat)

  /** The time of the last new-block event at or before a version. */
  function BlockAt(l: Ledger, version: nat): Result<nat> {
    if version in l.blocks then Ok(l.blocks[version])
    else if version == 0 then Err(NoBlock)
    else BlockAt(l, version - 1)
  }

  /** The database's lookup. */
  function Lookup(l: Ledger, version: nat): Result<nat> {
    if version < l.oldest then Err(Pruned)
    else if version >= |l.transactions| then Err(Future)
    else BlockAt(l, version)
  }

  /** `n` transactions of the ledger from version `start` on. */
  function Read(l: Ledger, start: nat, n: nat): (data: seq<OnChain>)
    requires start + n <= |l.transactions|
    ensures |data| == n && forall i :: 0 <= i < n ==> data[i] == OnChain(start + i, l.transactions[start + i])
  {
    seq(n, i requires 0 <= i < n => OnChain(start + i, l.transactions[start + i]))
  }

  /** The running timestamp after `data`, having started from `timestamp`. */
  function Running(data: seq<OnChain>, timestamp: nat): nat {
    if data == [] then timestamp
    else
      var n := |data| - 1;
      if data[n].transaction.BlockMetadata? then data[n].transaction.timestamp
      else Running(data[..n], timestamp)
  }

  type Converter<!T> = (nat, OnChain) -> Result<T>

  /** Converts every transaction with the stamp given for it, up to the first failure of a
      stamp or of the converter. */
  function Convert<T>(convert: Converter<T>, stamps: seq<Result<nat>>, data: seq<OnChain>): Result<seq<T>>
    requires |stamps| == |data|
    decreases |data|
  {
    if data == [] then Ok([])
    else
      var n := |data| - 1;
      var before := Convert(convert, stamps[..n], data[..n]);
      if before.Err? then before
      else
        var r := ConvertOne(convert, stamps[n], data[n]);
        if r.Err? then Err(r.error) else Ok(before.value + [r.value])
  }

  function ConvertOne<T>(convert: Converter<T>, stamp: Result<nat>, t: OnChain): Result<T> {
    if stamp.Err? then Err(stamp.error) else convert(stamp.value, t)
  }

  function RunningStamps(data: seq<OnChain>, timestamp: nat): (s: seq<Result<nat>>)
    ensures |s| == |data|
  {
    if data == [] then []
    else RunningStamps(data[..|data| - 1], timestamp) + [Ok(Running(data, timestamp))]
  }

  function LookupStamps(l: Ledger, data: seq<OnChain>): (s: seq<Result<nat>>)
    ensures |s| == |data|
  {
    if data == [] then []
    else LookupStamps(l, data[..|data| - 1]) + [Lookup(l, data[|data| - 1].version)]
  }

  method RenderSequential<T>(convert: Converter<T>, data: seq<OnChain>, timestamp: nat) returns (r: Result<seq<T>>)
    ensures r == Convert(convert, RunningStamps(data, timestamp), data)
  {
    var now, out := timestamp, [];
    for i := 0 to |data|
      invariant now == Running(data[..i], timestamp)
      invariant Convert(convert, RunningStamps(data[..i], timestamp), data[..i]) == Ok(out)
    {
      ghost var stamps := RunningStamps(data[..i + 1], timestamp);
      assert data[..i + 1][..i] == data[..i];
      assert stamps[..i] == RunningStamps(data[..i], timestamp);
      if data[i].transaction.BlockMetadata? {
        now := data[i].transaction.timestamp;
      }
      var txn := convert(now, data[i]);
      if txn.Err? {
        FailsEarly(convert, RunningStamps(data, timestamp), data, i + 1, txn.error) by {
          RunningStampsPrefix(data, timestamp, i + 1);
        }
        return Err(txn.error);
      }
      out := out + [txn.value];
    }
    assert data[..|data|] == data;
    return Ok(out);
  }

  method RenderNonSequential<T>(convert: Converter<T>, l: Ledger, data: seq<OnChain>) returns (r: Result<seq<T>>)
    ensures r == Convert(convert, LookupStamps(l, data), data)
  {
    var out := [];
    for i := 0 to |data|
      invariant Convert(convert, LookupStamps(l, data[..i]), data[..i]) == Ok(out)
    {
      ghost var stamps := LookupStamps(l, data[..i + 1]);
      assert data[..i + 1][..i] == data[..i];
      assert stamps[..i] == LookupStamps(l, data[..i]);
      var timestamp := Lookup(l, data[i].version);
      if timestamp.Err? {
        FailsEarly(convert, LookupStamps(l, data), data, i + 1, timestamp.error) by {
          LookupStampsPrefix(l, data, i + 1);
        }
        return Err(timestamp.error);
      }
      var txn := convert(timestamp.value, data[i]);
      if txn.Err? {
        FailsEarly(convert, LookupStamps(l, data), data, i + 1, txn.error) by {
          LookupStampsPrefix(l, data, i + 1);
        }
        return Err(txn.error);
      }
      out := out + [txn.value];
    }
    assert data[..|data|] == data;
    return Ok(out);
  }

  lemma {:induction false} FailsEarly<T>(convert: Converter<T>, stamps: seq<Result<nat>>, data: seq<OnChain>, n: nat,
    e: Error)
    requires |stamps| == |data| && n <= |data|
    requires Convert(convert, stamps[..n], data[..n]) == Err(e)
    ensures Convert(convert, stamps, data) == Err(e)
    decreases |data| - n
  {
    if n < |data| {
      assert stamps[..n + 1][..n] == stamps[..n] && data[..n + 1][..n] == data[..n];
      FailsEarly(convert, stamps, data, n + 1, e);
    } else {
      assert stamps[..n] == stamps && data[..n] == data;
    }
  }

  lemma {:induction false} RunningStampsPrefix(data: seq<OnChain>, timestamp: nat, n: nat)
    requires n <= |data|
    ensures RunningStamps(data, timestamp)[..n] == RunningStamps(data[..n], timestamp)
  {
    if n == |data| {
      assert data[..n] == data;
    } else {
      var m := |data| - 1;
      RunningStampsPrefix(data[..m], timestamp, n);
      assert data[..m][..n] == data[..n];
    }
  }

  lemma {:induction false} LookupStampsPrefix(l: Ledger, data: seq<OnChain>, n: nat)
    requires n <= |data|
    ensures LookupStamps(l, data)[..n] == LookupStamps(l, data[..n])
  {
    if n == |data| {
      assert data[..n] == data;
    } else {
      var m := |data| - 1;
      LookupStampsPrefix(l, data[..m], n);
      assert data[..m][..n] == data[..n];
    }
  }

  // ----- What the stamps and the conversion are -----

  /** The last version at or before `version` that emitted a new-block event. */
  ghost predicate Nearest(l: Ledger, version: nat, b: nat) {
    b <= version && b in l.blocks && forall w :: b < w <= version ==> w !in l.blocks
  }

  lemma {:induction false} BlockAtNearest(l: Ledger, version: nat)
    ensures BlockAt(l, version).Ok? ==> exists b :: Nearest(l, version, b) && BlockAt(l, version).value == l.blocks[b]
    ensures BlockAt(l, version).Err? ==>
      BlockAt(l, version).error == NoBlock && forall b :: b <= version ==> b !in l.blocks
  {
    if version in l.blocks {
      assert Nearest(l, version, version);
    } else if version > 0 {
      BlockAtNearest(l, version - 1);
      if BlockAt(l, version).Ok? {
        var b :| Nearest(l, version - 1, b) && BlockAt(l, version - 1).value == l.blocks[b];
        assert Nearest(l, version, b);
      }
    }
  }

  /** A lookup gives the time of the nearest block, and fails exactly for a version that was
      pruned, is still to come, or has no block before it. */
  lemma LookupMeaning(l: Ledger, version: nat)
    ensures var r := Lookup(l, version);
      && (r.Ok? ==> exists b :: Nearest(l, version, b) && r.value == l.blocks[b])
      && (r == Err(Pruned) <==> version < l.oldest)
      && (r == Err(Future) <==> version >= l.oldest && version >= |l.transactions|)
      && (r == Err(NoBlock) <==>
            l.oldest <= version < |l.transactions| && forall b :: b <= version ==> b !in l.blocks)
      && (r.Err? ==> !r.error.Conversion?)
  {
    BlockAtNearest(l, version);
  }

  predicate LastMetadata(data: seq<OnChain>, i: nat) {
    i < |data| && data[i].transaction.BlockMetadata? && forall j :: i < j < |data| ==> data[j].transaction.Other?
  }

  /** The running timestamp is that of the last metadata met, or the one it started from. */
  lemma {:induction false} RunningMeaning(data: seq<OnChain>, timestamp: nat)
    ensures (forall i :: 0 <= i < |data| ==> data[i].transaction.Other?) ==> Running(data, timestamp) == timestamp
    ensures forall i: nat :: LastMetadata(data, i) ==> Running(data, timestamp) == data[i].transaction.timestamp
  {
    if data != [] {
      var n := |data| - 1;
      RunningMeaning(data[..n], timestamp);
      forall i: nat | LastMetadata(data, i) ensures Running(data, timestamp) == data[i].transaction.timestamp {
        assert i < n ==> LastMetadata(data[..n], i);
      }
    }
  }

  /** Each transaction gets the running timestamp as of itself, or its own lookup. */
  lemma StampsAt(l: Ledger, data: seq<OnChain>, timestamp: nat, i: nat)
    requires i < |data|
    ensures RunningStamps(data, timestamp)[i] == Ok(Running(data[..i + 1], timestamp))
    ensures LookupStamps(l, data)[i] == Lookup(l, data[i].version)
  {
    RunningStampsPrefix(data, timestamp, i + 1);
    LookupStampsPrefix(l, data, i + 1);
    assert data[..i + 1][i] == data[i];
    assert RunningStamps(data, timestamp)[i] == RunningStamps(data, timestamp)[..i + 1][i];
    assert LookupStamps(l, data)[i] == LookupStamps(l, data)[..i + 1][i];
  }

  /** What the conversion of one transaction with its stamp gives. */
  ghost predicate Gives<T>(convert: Converter<T>, stamp: Result<nat>, t: OnChain, r: Result<T>) {
    if stamp.Err? then r == Err(stamp.error) else r == convert(stamp.value, t)
  }

  /** Transaction `i` fails with `e`, and none before it fails. */
  ghost predicate FirstFailure<T(!new)>(convert: Converter<T>, stamps: seq<Result<nat>>, data: seq<OnChain>, i: nat,
    e: Error)
    requires |stamps| == |data| && i < |data|
  {
    && Gives(convert, stamps[i], data[i], Err(e))
    && forall j :: 0 <= j < i ==> exists x: T :: Gives(convert, stamps[j], data[j], Ok(x))
  }

  /** A conversion that succeeds gives one result for each transaction, in order; one that fails
      reports the first failure, of a stamp or of the converter. */
  lemma {:induction false} ConvertMeaning<T(!new)>(convert: Converter<T>, stamps: seq<Result<nat>>, data: seq<OnChain>)
    requires |stamps| == |data|
    ensures var r := Convert(convert, stamps, data);
      && (r.Ok? ==>
            && |r.value| == |data|
            && forall i :: 0 <= i < |data| ==> Gives(convert, stamps[i], data[i], Ok(r.value[i])))
      && (r.Err? ==>
            exists i :: 0 <= i < |data| && FirstFailure(convert, stamps, data, i, r.error))
  {
    if data != [] {
      var n := |data| - 1;
      ConvertMeaning(convert, stamps[..n], data[..n]);
      var before, r := Convert(convert, stamps[..n], data[..n]), Convert(convert, stamps, data);
      if before.Err? {
        var i :| 0 <= i < n && FirstFailure(convert, stamps[..n], data[..n], i, before.error);
        forall j | 0 <= j < i ensures exists x: T :: Gives(convert, stamps[j], data[j], Ok(x)) {
          var x: T :| Gives(convert, stamps[..n][j], data[..n][j], Ok(x));
          assert Gives(convert, stamps[j], data[j], Ok(x));
        }
        assert FirstFailure(convert, stamps, data, i, r.error);
      } else if r.Err? {
        forall j | 0 <= j < n ensures exists x: T :: Gives(convert, stamps[j], data[j], Ok(x)) {
          assert Gives(convert, stamps[..n][j], data[..n][j], Ok(before.value[j]));
          assert Gives(convert, stamps[j], data[j], Ok(before.value[j]));
        }
        assert FirstFailure(convert, stamps, data, n, r.error);
      }
    }
  }

  // ----- The running timestamp against the lookup -----

  /** What is taken for granted of a chain: the metadata transactions are those that emit a
      new-block event, with the same time. */
  predicate Marked(l: Ledger, version: nat)
    requires version < |l.transactions|
  {
    var t := l.transactions[version];
    (t.BlockMetadata? <==> version in l.blocks) && (t.BlockMetadata? ==> l.blocks[version] == t.timestamp)
  }

  /** The metadata and the event of a version give the same time, or the only one there is
      repeats the time of the block before. */
  predicate SameTime(l: Ledger, version: nat)
    requires 0 < version < |l.transactions|
  {
    match (l.transactions[version], version in l.blocks)
    case (BlockMetadata(time), true) => l.blocks[version] == time
    case (BlockMetadata(time), false) => BlockAt(l, version - 1) == Ok(time)
    case (Other(_), true) => BlockAt(l, version - 1) == Ok(l.blocks[version])
    case (Other(_), false) => true
  }

  /** The first stamp is right: the start can be read, it belongs to a block, and the time of
      that block is what the pass begins with. */
  predicate GoodStart(l: Ledger, start: nat, timestamp: nat)
    requires start < |l.transactions|
  {
    var t := l.transactions[start];
    Lookup(l, start) == Ok(if t.BlockMetadata? then t.timestamp else timestamp)
  }

  ghost predicate SameTimes(l: Ledger, start: nat, n: nat)
    requires start + n <= |l.transactions|
  {
    forall v :: start < v < start + n ==> SameTime(l, v)
  }

  /** One version more: if the stamps agreed so far, they agree here exactly if the times do. */
  lemma NextStamp(l: Ledger, start: nat, n: nat, timestamp: nat)
    requires start + n < |l.transactions| && start >= l.oldest && n > 0
    requires Ok(Running(Read(l, start, n), timestamp)) == Lookup(l, start + n - 1)
    ensures Ok(Running(Read(l, start, n + 1), timestamp)) == Lookup(l, start + n) <==> SameTime(l, start + n)
  {
    assert Read(l, start, n + 1)[..n] == Read(l, start, n);
  }

  lemma StampsSnoc(l: Ledger, start: nat, n: nat, timestamp: nat)
    requires start + n < |l.transactions|
    ensures var more, less := Read(l, start, n + 1), Read(l, start, n);
      && RunningStamps(more, timestamp) == RunningStamps(less, timestamp) + [Ok(Running(more, timestamp))]
      && LookupStamps(l, more) == LookupStamps(l, less) + [Lookup(l, start + n)]
  {
    assert Read(l, start, n + 1)[..n] == Read(l, start, n);
  }

  ghost predicate Agree(l: Ledger, start: nat, n: nat, timestamp: nat)
    requires start + n <= |l.transactions|
  {
    RunningStamps(Read(l, start, n), timestamp) == LookupStamps(l, Read(l, start, n))
  }

  lemma AgreeSnoc(l: Ledger, start: nat, n: nat, timestamp: nat)
    requires start + n < |l.transactions|
    ensures Agree(l, start, n + 1, timestamp) <==>
      Agree(l, start, n, timestamp) && Ok(Running(Read(l, start, n + 1), timestamp)) == Lookup(l, start + n)
  {
    var more, less := Read(l, start, n + 1), Read(l, start, n);
    StampsSnoc(l, start, n, timestamp);
    var a, b := RunningStamps(more, timestamp), LookupStamps(l, more);
    assert a[..n] == RunningStamps(less, timestamp) && b[..n] == LookupStamps(l, less);
    assert a == b ==> a[n] == b[n];
  }

  /** Over consecutive versions the one-pass stamps are the looked-up stamps, none of which
      fails, if and only if the first is right and at every later version the metadata and the
      events give the same time. */
  lemma {:induction false} StampsAgreeExactly(l: Ledger, start: nat, n: nat, timestamp: nat)
    requires start + n <= |l.transactions|
    ensures Agree(l, start, n, timestamp) <==> n == 0 || (GoodStart(l, start, timestamp) && SameTimes(l, start, n))
    decreases n
  {
    if n == 1 {
      AgreeSnoc(l, start, 0, timestamp);
      assert Read(l, start, 1)[..0] == [] && Agree(l, start, 0, timestamp);
    } else if n > 1 {
      StampsAgreeExactly(l, start, n - 1, timestamp);
      AgreeSnoc(l, start, n - 1, timestamp);
      if Agree(l, start, n - 1, timestamp) {
        AgreeSnoc(l, start, n - 2, timestamp);
        NextStamp(l, start, n - 1, timestamp);
      }
    }
  }

  lemma MarkedIsSameTime(l: Ledger, v: nat)
    requires 0 < v < |l.transactions| && Marked(l, v)
    ensures SameTime(l, v)
  {}

  /** The page of the API: the block of its first version is looked up, then one pass. */
  function RenderPage<T>(convert: Converter<T>, l: Ledger, start: nat, n: nat): Result<seq<T>>
    requires start + n <= |l.transactions|
  {
    var first, data := Lookup(l, start), Read(l, start, n);
    if first.Err? then Err(first.error) else Convert(convert, RunningStamps(data, first.value), data)
  }

  /** A chain whose later blocks are marked, and whose metadata at the start of the page, if
      any, emits its event: the page is what per-version lookups would render, failures of
      lookup and conversion included, whatever the converter. */
  lemma SequentialRefinesLookup<T>(convert: Converter<T>, l: Ledger, start: nat, n: nat)
    requires start + n <= |l.transactions| && n > 0
    requires forall v :: start < v < start + n ==> Marked(l, v)
    requires l.transactions[start].BlockMetadata? ==> Marked(l, start)
    ensures RenderPage(convert, l, start, n) == Convert(convert, LookupStamps(l, Read(l, start, n)), Read(l, start, n))
  {
    var first, data := Lookup(l, start), Read(l, start, n);
    if first.Ok? {
      forall v | start < v < start + n ensures SameTime(l, v) {
        MarkedIsSameTime(l, v);
      }
      StampsAgreeExactly(l, start, n, first.value);
    } else {
      var stamps := LookupStamps(l, data);
      LookupStampsPrefix(l, data, 1);
      assert data[..1] == [OnChain(start, l.transactions[start])] && data[..1][..0] == [];
      assert LookupStamps(l, data[..1]) == [first];
      FailsEarly(convert, stamps, data, 1, first.error);
    }
  }

  /** Metadata without its event: the pass moves on to time 2, the lookup stays at 1. */
  lemma UnmarkedDiffers()
    ensures var l := Ledger([BlockMetadata(1), BlockMetadata(2)], map[0 := 1], 0);
      GoodStart(l, 0, 1) && !Marked(l, 1) && !Agree(l, 0, 2, 1)
  {
    var l := Ledger([BlockMetadata(1), BlockMetadata(2)], map[0 := 1], 0);
    assert BlockAt(l, 0) == Ok(1);
    assert !SameTime(l, 1);
    StampsAgreeExactly(l, 0, 2, 1);
  }
}
