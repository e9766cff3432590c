/** What Genesis.Load establishes, and when it establishes the lockup invariant. */
module Genesis {
  import opened Base
  import opened Storage
  import opened Actions
  import opened Transactions
  import opened Lockup

  function Count(allocs: seq<Allocation>, a: PublicKey): nat {
    if allocs == [] then 0
    else (if allocs[0].address == a then 1 else 0) + Count(allocs[1..], a)
  }

  predicate Distinct(allocs: seq<Allocation>) {
    forall i, j :: 0 <= i < j < |allocs| ==> allocs[i].address != allocs[j].address
  }

  lemma {:induction false} CountMember(allocs: seq<Allocation>, i: nat)
    requires i < |allocs|
    ensures Count(allocs, allocs[i].address) >= 1
  {
    if i > 0 {
      CountMember(allocs[1..], i - 1);
    }
  }

  lemma {:induction false} CountNonMember(allocs: seq<Allocation>, a: PublicKey)
    requires forall i :: 0 <= i < |allocs| ==> allocs[i].address != a
    ensures Count(allocs, a) == 0
  {
    if allocs != [] {
      CountNonMember(allocs[1..], a);
    }
  }

  lemma {:induction false} CountTwice(allocs: seq<Allocation>, i: nat, j: nat)
    requires i < j < |allocs| && allocs[i].address == allocs[j].address
    ensures Count(allocs, allocs[i].address) >= 2
  {
    if i == 0 {
      CountMember(allocs[1..], j - 1);
    } else {
      CountTwice(allocs[1..], i - 1, j - 1);
    }
  }

  lemma {:induction false} CountDistinct(allocs: seq<Allocation>, a: PublicKey)
    requires Distinct(allocs)
    ensures Count(allocs, a) <= 1
  {
    if allocs != [] {
      if allocs[0].address == a {
        forall i | 0 <= i < |allocs[1..]| ensures allocs[1..][i].address != a {
          assert allocs[i + 1].address != allocs[0].address;
        }
        CountNonMember(allocs[1..], a);
      } else {
        CountDistinct(allocs[1..], a);
      }
    }
  }

  /** What a load from `l` to `l'` that lists `a` exactly `n` times does to `a`. */
  ghost predicate Loaded(m: nat, l: Ledger, l': Ledger, a: PublicKey, n: nat) {
    && l'.content == l.content
    && BalanceOf(l', a).locked == BalanceOf(l, a).locked + Cost(m, n)
    && (n == 0 ==> BalanceOf(l', a) == BalanceOf(l, a) && Grants(l'.permissions, a) == Grants(l.permissions, a))
    && (n > 0 ==> Grants(l'.permissions, a) == Grants(l.permissions, a) + {Grant(a, a)})
  }

  lemma LoadOneEffect(r: Rules, l: Ledger, x: Allocation, a: PublicKey)
    requires LoadOne(r, l, x).Done?
    ensures Loaded(WrappingAdd(r.stateLockup, r.stateLockup), l, LoadOne(r, l, x).ledger, a,
                   if x.address == a then 1 else 0)
  {
    var m, g := WrappingAdd(r.stateLockup, r.stateLockup), Grant(x.address, x.address);
    assert Cost(m, 1) == m;
    GrantsAfterSet(l.permissions, g, DEFAULT_PERMISSIONS, a);
  }

  lemma {:induction false} CostSum(m: nat, j: nat, k: nat)
    ensures Cost(m, j + k) == Cost(m, j) + Cost(m, k)
  {
    if k > 0 {
      CostSum(m, j, k - 1);
    }
  }

  lemma LoadedCompose(m: nat, l: Ledger, l1: Ledger, l2: Ledger, a: PublicKey, j: nat, k: nat)
    requires Loaded(m, l, l1, a, j) && Loaded(m, l1, l2, a, k)
    ensures Loaded(m, l, l2, a, j + k)
  {
    CostSum(m, j, k);
  }

  /** Loading locks the same amount once for every time an address is listed, grants each
      listed address its own record and nothing else. */
  lemma {:induction false} LoadEffect(r: Rules, l: Ledger, allocs: seq<Allocation>, a: PublicKey)
    requires Load(r, l, allocs).Done?
    ensures Loaded(WrappingAdd(r.stateLockup, r.stateLockup), l, Load(r, l, allocs).ledger, a, Count(allocs, a))
    decreases |allocs|
  {
    if allocs != [] {
      var m, l1 := WrappingAdd(r.stateLockup, r.stateLockup), LoadOne(r, l, allocs[0]).ledger;
      var j, k := if allocs[0].address == a then 1 else 0, Count(allocs[1..], a);
      var l2 := Load(r, l1, allocs[1..]).ledger;
      assert Loaded(m, l, l1, a, j) by { LoadOneEffect(r, l, allocs[0], a); }
      assert Loaded(m, l1, l2, a, k) by { LoadEffect(r, l1, allocs[1..], a); }
      LoadedCompose(m, l, l1, l2, a, j, k);
    }
  }

  lemma {:induction false} LoadGrantsDefaults(r: Rules, l: Ledger, allocs: seq<Allocation>)
    requires Load(r, l, allocs).Done? && NoZeroGrant(l)
    ensures NoZeroGrant(Load(r, l, allocs).ledger)
    decreases |allocs|
  {
    if allocs != [] {
      LoadGrantsDefaults(r, LoadOne(r, l, allocs[0]).ledger, allocs[1..]);
    }
  }

  lemma LoadedAccountOk(r: Rules, allocs: seq<Allocation>, a: PublicKey)
    requires Load(r, EMPTY_LEDGER, allocs).Done?
    requires ValidRules(r) && Distinct(allocs)
    ensures AccountOk(r.stateLockup, Load(r, EMPTY_LEDGER, allocs).ledger, a)
  {
    LoadEffect(r, EMPTY_LEDGER, allocs, a);
    CountDistinct(allocs, a);
    CostOfTwo(r.stateLockup);
    var m := WrappingAdd(r.stateLockup, r.stateLockup);
    assert Cost(m, 1) == m;
    var l := Load(r, EMPTY_LEDGER, allocs).ledger;
    assert Owned(l.content, a) == {};
    assert Grants(EMPTY_LEDGER.permissions, a) == {};
    if Count(allocs, a) == 1 {
      assert Grants(l.permissions, a) == {Grant(a, a)};
    }
  }

  lemma ListedAccountForcesValidity(r: Rules, allocs: seq<Allocation>, i: nat)
    requires Load(r, EMPTY_LEDGER, allocs).Done? && i < |allocs|
    requires AccountOk(r.stateLockup, Load(r, EMPTY_LEDGER, allocs).ledger, allocs[i].address)
    ensures ValidRules(r) && Count(allocs, allocs[i].address) == 1
  {
    var a, l := allocs[i].address, Load(r, EMPTY_LEDGER, allocs).ledger;
    CountMember(allocs, i);
    LoadEffect(r, EMPTY_LEDGER, allocs, a);
    assert Grants(EMPTY_LEDGER.permissions, a) == {};
    assert Grants(l.permissions, a) == {Grant(a, a)};
    assert Owned(l.content, a) == {};
    CostOfTwo(r.stateLockup);
    assert BalanceOf(l, a).locked == r.stateLockup * 2;
    var m := WrappingAdd(r.stateLockup, r.stateLockup);
    assert Cost(m, 1) == m;
    var n := Count(allocs, a);
    CostMonotone(m, 1, n);
  }

  /** A genesis that loads establishes the lockup invariant if and only if it allocates
      nothing, or the lockup is positive, its double fits in 64 bits and no address is
      listed twice. */
  lemma GenesisLockup(r: Rules, allocs: seq<Allocation>)
    requires Load(r, EMPTY_LEDGER, allocs).Done?
    ensures LockupInvariant(r.stateLockup, Load(r, EMPTY_LEDGER, allocs).ledger)
      <==> allocs == [] || (ValidRules(r) && Distinct(allocs))
  {
    var l := Load(r, EMPTY_LEDGER, allocs).ledger;
    LoadGrantsDefaults(r, EMPTY_LEDGER, allocs);
    if allocs == [] {
      forall a ensures AccountOk(r.stateLockup, l, a) {}
    } else if ValidRules(r) && Distinct(allocs) {
      forall a ensures AccountOk(r.stateLockup, l, a) {
        LoadedAccountOk(r, allocs, a);
      }
    } else if LockupInvariant(r.stateLockup, l) {
      assert AccountOk(r.stateLockup, l, allocs[0].address);
      ListedAccountForcesValidity(r, allocs, 0);
      var i, j :| 0 <= i < j < |allocs| && allocs[i].address == allocs[j].address;
      CountTwice(allocs, i, j);
      ListedAccountForcesValidity(r, allocs, i);
      assert false;
    }
  }

  /** What an address is allocated in all. */
  function AllocatedTo(allocs: seq<Allocation>, a: PublicKey): nat {
    if allocs == [] then 0
    else (if allocs[0].address == a then allocs[0].balance else 0) + AllocatedTo(allocs[1..], a)
  }

  lemma LoadOneBalance(r: Rules, l: Ledger, x: Allocation, a: PublicKey)
    requires LoadOne(r, l, x).Done?
    ensures var b, b' := BalanceOf(l, a), BalanceOf(LoadOne(r, l, x).ledger, a);
      b'.unlocked + b'.locked == b.unlocked + b.locked + if x.address == a then x.balance else 0
  {}

  /** Every account ends up with what it was allocated, unlocked and locked together. */
  lemma {:induction false} LoadBalances(r: Rules, l: Ledger, allocs: seq<Allocation>, a: PublicKey)
    requires Load(r, l, allocs).Done?
    ensures var b, b' := BalanceOf(l, a), BalanceOf(Load(r, l, allocs).ledger, a);
      b'.unlocked + b'.locked == b.unlocked + b.locked + AllocatedTo(allocs, a)
    decreases |allocs|
  {
    if allocs != [] {
      LoadOneBalance(r, l, allocs[0], a);
      LoadBalances(r, LoadOne(r, l, allocs[0]).ledger, allocs[1..], a);
    }
  }

  // ----- Inputs that fail the condition -----

  lemma LoadSingle(r: Rules, l: Ledger, x: Allocation)
    ensures Load(r, l, [x]) == LoadOne(r, l, x)
  {
    assert [x][1..] == [];
  }

  lemma LoadPair(r: Rules, l: Ledger, x: Allocation, y: Allocation)
    requires LoadOne(r, l, x).Done?
    ensures Load(r, l, [x, y]) == LoadOne(r, LoadOne(r, l, x).ledger, y)
  {
    assert [x, y][1..] == [y];
    LoadSingle(r, LoadOne(r, l, x).ledger, y);
  }

  /** What one allocation that covers the lockup leaves. */
  lemma LoadOneResult(r: Rules, l: Ledger, x: Allocation)
    requires ValidRules(r) && BalanceOf(l, x.address).unlocked + x.balance < TWO_64
    requires BalanceOf(l, x.address).locked + r.stateLockup * 2 < TWO_64 && x.balance >= r.stateLockup * 2
    ensures var s, b := LoadOne(r, l, x), BalanceOf(l, x.address);
      && s.Done? && s.ledger.content == l.content
      && s.ledger.balances == l.balances[x.address :=
           Balance(b.unlocked + x.balance - r.stateLockup * 2, b.locked + r.stateLockup * 2)]
      && s.ledger.permissions == l.permissions[Grant(x.address, x.address) := DEFAULT_PERMISSIONS]
  {}

  /** An address listed twice, each time with enough for one account: genesis loads, and the
      account locks twice what it occupies. */
  lemma RepeatedAddressBreaks(r: Rules, a: PublicKey)
    requires ValidRules(r) && r.stateLockup * 4 < TWO_64
    ensures var x := Allocation(a, r.stateLockup * 2);
      var s := Load(r, EMPTY_LEDGER, [x, x]);
      && s.Done? && BalanceOf(s.ledger, a).locked == r.stateLockup * 4
      && !LockupInvariant(r.stateLockup, s.ledger)
  {
    var x := Allocation(a, r.stateLockup * 2);
    LoadOneResult(r, EMPTY_LEDGER, x);
    var l1 := LoadOne(r, EMPTY_LEDGER, x).ledger;
    LoadOneResult(r, l1, x);
    LoadPair(r, EMPTY_LEDGER, x, x);
    assert [x, x][0].address == [x, x][1].address && !Distinct([x, x]);
    GenesisLockup(r, [x, x]);
  }

  /** A lockup of zero, or one whose double wraps: the smallest allocation that loads leaves
      an account outside the invariant. For a lockup of 2^63 that allocation is nothing, and
      the account has a record although it does not exist. */
  lemma InvalidRulesBreak(r: Rules, a: PublicKey)
    requires !ValidRules(r)
    ensures var s := Load(r, EMPTY_LEDGER, [Allocation(a, WrappingAdd(r.stateLockup, r.stateLockup))]);
      && s.Done? && !LockupInvariant(r.stateLockup, s.ledger)
      && (r.stateLockup * 2 == TWO_64 ==> !Exists(s.ledger, a) && Grant(a, a) in s.ledger.permissions)
  {
    var x := Allocation(a, WrappingAdd(r.stateLockup, r.stateLockup));
    LoadSingle(r, EMPTY_LEDGER, x);
    assert LoadOne(r, EMPTY_LEDGER, x).Done?;
    GenesisLockup(r, [x]);
  }

  // ----- Reachable states -----

  /** The state reached from a well-formed genesis by any transactions whatever. */
  ghost predicate Reachable(r: Rules, l: Ledger) {
    exists allocs: seq<Allocation>, txs: seq<Transaction>
      {:trigger Run(r, Load(r, EMPTY_LEDGER, allocs).ledger, txs)} ::
      && Distinct(allocs)
      && Load(r, EMPTY_LEDGER, allocs).Done?
      && l == Run(r, Load(r, EMPTY_LEDGER, allocs).ledger, txs)
  }

  lemma ReachableKeeps(r: Rules, l: Ledger)
    requires ValidRules(r) && Reachable(r, l)
    ensures LockupInvariant(r.stateLockup, l)
  {
    var allocs: seq<Allocation>, txs: seq<Transaction> :|
      && Distinct(allocs)
      && Load(r, EMPTY_LEDGER, allocs).Done?
      && l == Run(r, Load(r, EMPTY_LEDGER, allocs).ledger, txs);
    GenesisLockup(r, allocs);
    RunKeeps(r, Load(r, EMPTY_LEDGER, allocs).ledger, txs);
  }

  lemma InvariantMeaning(lockup: nat, l: Ledger, a: PublicKey)
    requires LockupInvariant(lockup, l)
    ensures Exists(l, a) ==>
      BalanceOf(l, a).locked == lockup * (1 + |Grants(l.permissions, a)| + |Owned(l.content, a)|)
    ensures !Exists(l, a) ==>
      BalanceOf(l, a) == Balance(0, 0) && Grants(l.permissions, a) == {} && Owned(l.content, a) == {}
  {
    assert AccountOk(lockup, l, a);
    CostIsProduct(lockup, Occupied(l, a));
  }

  /** In every reachable state an account that exists locks one unit for itself, one for
      each record it granted and one for each content it owns, and an account that does not
      exist has no funds, no records and no content. */
  lemma ReachableLockup(r: Rules, l: Ledger, a: PublicKey)
    requires ValidRules(r) && Reachable(r, l)
    ensures Exists(l, a) ==>
      BalanceOf(l, a).locked
      == r.stateLockup * (1 + |Grants(l.permissions, a)| + |Owned(l.content, a)|)
    ensures !Exists(l, a) ==>
      BalanceOf(l, a) == Balance(0, 0) && Grants(l.permissions, a) == {} && Owned(l.content, a) == {}
  {
    ReachableKeeps(r, l);
    InvariantMeaning(r.stateLockup, l, a);
  }
}
