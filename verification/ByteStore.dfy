/**
 The key-value database as the ledger code sees it, and the storage operations as they run
 on it: bytes in, bytes out. Each operation is proved to do to the typed view what the
 function of the same name in module Storage does.
 */
module ByteStore {
  import opened Base
  import opened Codec
  import opened Wrappers
  import S = Storage

  function ErrorOf<T>(s: S.Step<T>): Option<S.Error> {
    if s.Failed? then Some(s.error) else None
  }

  // ----- What it means for bytes to represent a ledger -----

  predicate Has(l: S.Ledger, k: S.Key) {
    match k
    case BalanceKey(pk) => pk in l.balances
    case PermissionsKey(g) => g in l.permissions
    case ContentKey(id) => id in l.content
  }

  function ValueBytes(l: S.Ledger, k: S.Key): Bytes
    requires Has(l, k)
  {
    match k
    case BalanceKey(pk) => EncodeBalance(l.balances[pk])
    case PermissionsKey(g) => EncodePermissions(l.permissions[g])
    case ContentKey(id) => EncodeContent(l.content[id])
  }

  ghost predicate Agrees(store: map<Bytes, Bytes>, l: S.Ledger, k: S.Key) {
    && (KeyBytes(k) in store <==> Has(l, k))
    && (Has(l, k) ==> store[KeyBytes(k)] == ValueBytes(l, k))
  }

  ghost predicate Represents(store: map<Bytes, Bytes>, l: S.Ledger) {
    forall k: S.Key :: Agrees(store, l, k)
  }

  ghost function Image(ks: set<S.Key>): set<Bytes> {
    set k | k in ks :: KeyBytes(k)
  }

  /** The two ledgers agree on every key but `k`. */
  ghost predicate SameExcept(l: S.Ledger, l': S.Ledger, k: S.Key) {
    forall x: S.Key :: x != k ==> Has(l', x) == Has(l, x) && (Has(l, x) ==> ValueBytes(l', x) == ValueBytes(l, x))
  }

  lemma InsertRepresents(store: map<Bytes, Bytes>, l: S.Ledger, l': S.Ledger, k: S.Key, v: Bytes)
    requires Represents(store, l) && SameExcept(l, l', k)
    requires Has(l', k) && ValueBytes(l', k) == v
    ensures Represents(store[KeyBytes(k) := v], l')
  {
    var store' := store[KeyBytes(k) := v];
    forall x: S.Key ensures Agrees(store', l', x) {
      assert Agrees(store, l, x);
      if KeyBytes(x) == KeyBytes(k) {
        KeysInjective(x, k);
      }
    }
  }

  lemma RemoveRepresents(store: map<Bytes, Bytes>, l: S.Ledger, l': S.Ledger, k: S.Key)
    requires Represents(store, l) && SameExcept(l, l', k) && !Has(l', k)
    ensures Represents(store - {KeyBytes(k)}, l')
  {
    var store' := store - {KeyBytes(k)};
    forall x: S.Key ensures Agrees(store', l', x) {
      assert Agrees(store, l, x);
      if KeyBytes(x) == KeyBytes(k) {
        KeysInjective(x, k);
      }
    }
  }

  lemma TouchRepresents(store: map<Bytes, Bytes>, l: S.Ledger, l': S.Ledger)
    requires Represents(store, l) && l' == l.(touched := l'.touched)
    ensures Represents(store, l')
  {
    forall x: S.Key ensures Agrees(store, l', x) {
      assert Agrees(store, l, x);
    }
  }

  lemma ImageAdd(ks: set<S.Key>, k: S.Key)
    ensures Image(ks + {k}) == Image(ks) + {KeyBytes(k)}
  {
    forall b | b in Image(ks) + {KeyBytes(k)} ensures b in Image(ks + {k}) {
      var x :| x in ks + {k} && KeyBytes(x) == b;
    }
  }

  /** Keys compare the same typed or as bytes. */
  lemma ImageSubset(ks: set<S.Key>, ks': set<S.Key>)
    ensures Image(ks) <= Image(ks') <==> ks <= ks'
  {
    if Image(ks) <= Image(ks') {
      forall k | k in ks ensures k in ks' {
        assert KeyBytes(k) in Image(ks);
        var k' :| k' in ks' && KeyBytes(k') == KeyBytes(k);
        KeysInjective(k, k');
      }
    }
  }

  /** The bytes determine the typed maps. */
  lemma RepresentsDeterminesEntry(store: map<Bytes, Bytes>, l: S.Ledger, l': S.Ledger, k: S.Key)
    requires Represents(store, l) && Represents(store, l')
    ensures Has(l, k) == Has(l', k)
    ensures Has(l, k) ==>
      match k
      case BalanceKey(pk) => l.balances[pk] == l'.balances[pk]
      case PermissionsKey(g) => l.permissions[g] == l'.permissions[g]
      case ContentKey(id) => l.content[id] == l'.content[id]
  {
    assert Agrees(store, l, k) && Agrees(store, l', k);
    if Has(l, k) {
      match k
      case BalanceKey(pk) =>
        BalanceRoundTrip(l.balances[pk], store[KeyBytes(k)]);
        BalanceRoundTrip(l'.balances[pk], store[KeyBytes(k)]);
      case PermissionsKey(g) =>
      case ContentKey(id) =>
        ContentRoundTrip(l.content[id], store[KeyBytes(k)]);
        ContentRoundTrip(l'.content[id], store[KeyBytes(k)]);
    }
  }

  lemma RepresentsDeterminesLedger(store: map<Bytes, Bytes>, l: S.Ledger, l': S.Ledger)
    requires Represents(store, l) && Represents(store, l') && l.touched == l'.touched
    ensures l == l'
  {
    forall pk ensures pk in l.balances <==> pk in l'.balances
              ensures pk in l.balances ==> l.balances[pk] == l'.balances[pk] {
      RepresentsDeterminesEntry(store, l, l', S.BalanceKey(pk));
    }
    forall g ensures g in l.permissions <==> g in l'.permissions
             ensures g in l.permissions ==> l.permissions[g] == l'.permissions[g] {
      RepresentsDeterminesEntry(store, l, l', S.PermissionsKey(g));
    }
    forall id ensures id in l.content <==> id in l'.content
              ensures id in l.content ==> l.content[id] == l'.content[id] {
      RepresentsDeterminesEntry(store, l, l', S.ContentKey(id));
    }
    assert l.balances == l'.balances && l.permissions == l'.permissions && l.content == l'.content;
  }

  // ----- The database -----

  class Database {
    var store: map<Bytes, Bytes>
    ghost var accessed: set<Bytes>
    ghost var view: S.Ledger

    ghost predicate Valid()
      reads this
    {
      Represents(store, view) && accessed == Image(view.touched)
    }

    constructor ()
      ensures Valid() && view == S.Ledger(map[], map[], map[], {}) && store == map[]
    {
      store := map[];
      accessed := {};
      view := S.Ledger(map[], map[], map[], {});
      new;
      forall k: S.Key ensures Agrees(store, view, k) {}
    }

    method GetValue(k: Bytes) returns (v: Option<Bytes>)
      modifies this`accessed
      ensures v == if k in store then Some(store[k]) else None
      ensures accessed == old(accessed) + {k}
    {
      accessed := accessed + {k};
      v := if k in store then Some(store[k]) else None;
    }

    method Insert(k: Bytes, v: Bytes)
      modifies this`store, this`accessed
      ensures store == old(store)[k := v]
      ensures accessed == old(accessed) + {k}
    {
      accessed := accessed + {k};
      store := store[k := v];
    }

    method Remove(k: Bytes)
      modifies this`store, this`accessed
      ensures store == old(store) - {k}
      ensures accessed == old(accessed) + {k}
    {
      accessed := accessed + {k};
      store := store - {k};
    }

    // ----- Balances -----

    method GetBalance(pk: PublicKey) returns (unlocked: uint64, locked: uint64)
      requires Valid()
      modifies this`accessed, this`view
      ensures Valid() && view == S.Touch(old(view), S.BalanceKey(pk))
      ensures S.Balance(unlocked, locked) == S.BalanceOf(old(view), pk)
    {
      assert Agrees(store, view, S.BalanceKey(pk));
      var v := GetValue(PrefixBalanceKey(pk));
      ImageAdd(view.touched, S.BalanceKey(pk));
      TouchRepresents(store, view, S.Touch(view, S.BalanceKey(pk)));
      if v.Some? {
        BalanceRoundTrip(view.balances[pk], v.value);
        unlocked, locked := GetUint64(v.value[..8]), GetUint64(v.value[8..]);
      } else {
        unlocked, locked := 0, 0;
      }
      view := S.Touch(view, S.BalanceKey(pk));
    }

    method SetBalance(pk: PublicKey, unlocked: uint64, locked: uint64)
      requires Valid()
      modifies this
      ensures Valid() && view == S.SetBalance(old(view), pk, S.Balance(unlocked, locked))
    {
      var b := PutUint64(unlocked) + PutUint64(locked);
      ghost var view' := S.SetBalance(view, pk, S.Balance(unlocked, locked));
      InsertRepresents(store, view, view', S.BalanceKey(pk), b);
      ImageAdd(view.touched, S.BalanceKey(pk));
      Insert(PrefixBalanceKey(pk), b);
      view := view';
    }

    method DeleteBalance(pk: PublicKey)
      requires Valid()
      modifies this
      ensures Valid() && view == S.DeleteBalance(old(view), pk)
    {
      ghost var view' := S.DeleteBalance(view, pk);
      RemoveRepresents(store, view, view', S.BalanceKey(pk));
      ImageAdd(view.touched, S.BalanceKey(pk));
      Remove(PrefixBalanceKey(pk));
      view := view';
    }

    method AddUnlockedBalance(pk: PublicKey, amount: uint64, dropIfGone: bool)
      returns (existed: bool, err: Option<S.Error>)
      requires Valid()
      modifies this
      ensures Valid()
      ensures var s := S.AddUnlocked(old(view), pk, amount, dropIfGone);
        view == s.ledger && err == ErrorOf(s) && (s.Done? ==> existed == s.value)
    {
      var ubal, lbal := GetBalance(pk);
      if dropIfGone && lbal == 0 {
        return false, None;
      }
      if ubal + amount >= TWO_64 {
        return false, Some(S.ErrInvalidBalance);
      }
      SetBalance(pk, ubal + amount, lbal);
      return lbal > 0, None;
    }

    method SubUnlockedBalance(pk: PublicKey, amount: uint64) returns (err: Option<S.Error>)
      requires Valid()
      modifies this
      ensures Valid()
      ensures var s := S.SubUnlocked(old(view), pk, amount); view == s.ledger && err == ErrorOf(s)
    {
      var ubal, lbal := GetBalance(pk);
      if ubal < amount {
        return Some(S.ErrInvalidBalance);
      }
      SetBalance(pk, ubal - amount, lbal);
      return None;
    }

    method LockBalance(pk: PublicKey, amount: uint64) returns (err: Option<S.Error>)
      requires Valid()
      modifies this
      ensures Valid()
      ensures var s := S.LockBalance(old(view), pk, amount); view == s.ledger && err == ErrorOf(s)
    {
      var ubal, lbal := GetBalance(pk);
      if ubal < amount {
        return Some(S.ErrInvalidBalance);
      }
      if lbal + amount >= TWO_64 {
        return Some(S.ErrInvalidBalance);
      }
      SetBalance(pk, ubal - amount, lbal + amount);
      return None;
    }

    method UnlockBalance(pk: PublicKey, amount: uint64) returns (err: Option<S.Error>)
      requires Valid()
      modifies this
      ensures Valid()
      ensures var s := S.UnlockBalance(old(view), pk, amount); view == s.ledger && err == ErrorOf(s)
    {
      var ubal, lbal := GetBalance(pk);
      if ubal + amount >= TWO_64 {
        return Some(S.ErrInvalidBalance);
      }
      if lbal < amount {
        return Some(S.ErrInvalidBalance);
      }
      SetBalance(pk, ubal + amount, lbal - amount);
      return None;
    }

    // ----- Permissions -----

    method GetPermissions(actor: PublicKey, signer: PublicKey) returns (action: Byte, misc: Byte)
      requires Valid()
      modifies this`accessed, this`view
      ensures var g := S.Grant(actor, signer);
        && Valid() && view == S.Touch(old(view), S.PermissionsKey(g))
        && S.Permissions(action, misc) == S.PermissionsOf(old(view), g)
    {
      ghost var g := S.Grant(actor, signer);
      assert Agrees(store, view, S.PermissionsKey(g));
      var v := GetValue(PrefixPermissionsKey(actor, signer));
      ImageAdd(view.touched, S.PermissionsKey(g));
      TouchRepresents(store, view, S.Touch(view, S.PermissionsKey(g)));
      if v.Some? {
        action, misc := v.value[0], v.value[1];
      } else {
        action, misc := 0, 0;
      }
      view := S.Touch(view, S.PermissionsKey(g));
    }

    method SetPermissions(actor: PublicKey, signer: PublicKey, action: Byte, misc: Byte)
      requires Valid()
      modifies this
      ensures Valid()
      ensures view == S.SetPermissions(old(view), S.Grant(actor, signer), S.Permissions(action, misc))
    {
      ghost var g := S.Grant(actor, signer);
      ghost var view' := S.SetPermissions(view, g, S.Permissions(action, misc));
      InsertRepresents(store, view, view', S.PermissionsKey(g), [action, misc]);
      ImageAdd(view.touched, S.PermissionsKey(g));
      Insert(PrefixPermissionsKey(actor, signer), [action, misc]);
      view := view';
    }

    method DeletePermissions(actor: PublicKey, signer: PublicKey)
      requires Valid()
      modifies this
      ensures Valid() && view == S.DeletePermissions(old(view), S.Grant(actor, signer))
    {
      ghost var g := S.Grant(actor, signer);
      ghost var view' := S.DeletePermissions(view, g);
      RemoveRepresents(store, view, view', S.PermissionsKey(g));
      ImageAdd(view.touched, S.PermissionsKey(g));
      Remove(PrefixPermissionsKey(actor, signer));
      view := view';
    }

    // ----- Content -----

    method GetContent(id: ID) returns (owner: PublicKey, royalty: uint64, found: bool)
      requires Valid()
      modifies this`accessed, this`view
      ensures Valid() && view == S.Touch(old(view), S.ContentKey(id))
      ensures found == (id in old(view).content)
      ensures found ==> S.Content(owner, royalty) == old(view).content[id]
      ensures !found ==> owner == EMPTY_KEY && royalty == 0
    {
      assert Agrees(store, view, S.ContentKey(id));
      var v := GetValue(PrefixContentKey(id));
      ImageAdd(view.touched, S.ContentKey(id));
      TouchRepresents(store, view, S.Touch(view, S.ContentKey(id)));
      found := v.Some?;
      if found {
        ContentRoundTrip(view.content[id], v.value);
        owner, royalty := PublicKey(v.value[..32]), GetUint64(v.value[32..]);
      } else {
        owner, royalty := EMPTY_KEY, 0;
      }
      view := S.Touch(view, S.ContentKey(id));
    }

    method SetContent(id: ID, owner: PublicKey, royalty: uint64)
      requires Valid()
      modifies this
      ensures Valid() && view == S.SetContent(old(view), id, S.Content(owner, royalty))
    {
      var v := owner.bytes + PutUint64(royalty);
      ghost var view' := S.SetContent(view, id, S.Content(owner, royalty));
      InsertRepresents(store, view, view', S.ContentKey(id), v);
      ImageAdd(view.touched, S.ContentKey(id));
      Insert(PrefixContentKey(id), v);
      view := view';
    }

    method IndexContent(id: ID, pk: PublicKey, royalty: uint64) returns (err: Option<S.Error>)
      requires Valid()
      modifies this
      ensures Valid()
      ensures var s := S.IndexContent(old(view), id, pk, royalty); view == s.ledger && err == ErrorOf(s)
    {
      if royalty == 0 {
        return Some(S.ErrInsufficientTip);
      }
      var _, _, found := GetContent(id);
      if found {
        return Some(S.ErrContentAlreadyExists);
      }
      SetContent(id, pk, royalty);
      return None;
    }

    method UnindexContent(id: ID, pk: PublicKey) returns (err: Option<S.Error>)
      requires Valid()
      modifies this
      ensures Valid()
      ensures var s := S.UnindexContent(old(view), id, pk); view == s.ledger && err == ErrorOf(s)
    {
      var owner, _, found := GetContent(id);
      if !found {
        return Some(S.ErrContentMissing);
      }
      if owner != pk {
        return Some(S.ErrWrongOwner);
      }
      ghost var view' := view.(content := view.content - {id});
      RemoveRepresents(store, view, view', S.ContentKey(id));
      ImageAdd(view.touched, S.ContentKey(id));
      Remove(PrefixContentKey(id));
      view := view';
      return None;
    }

    method RewardSearcher(id: ID, sender: PublicKey) returns (owner: PublicKey, err: Option<S.Error>)
      requires Valid()
      modifies this
      ensures Valid()
      ensures var s := S.RewardSearcher(old(view), id, sender);
        view == s.ledger && err == ErrorOf(s) && owner == if s.Done? then s.value else EMPTY_KEY
    {
      var author, royalty, found := GetContent(id);
      if !found {
        return EMPTY_KEY, None;
      }
      err := SubUnlockedBalance(sender, royalty);
      if err.Some? {
        return EMPTY_KEY, err;
      }
      var _, e := AddUnlockedBalance(author, royalty, false);
      if e.Some? {
        return EMPTY_KEY, e;
      }
      return author, None;
    }

    /** Puts back the contents the database had earlier, keeping the record of accesses. */
    method Rollback(saved: map<Bytes, Bytes>, ghost savedView: S.Ledger)
      requires Valid() && Represents(saved, savedView)
      modifies this`store, this`view
      ensures Valid() && store == saved && view == savedView.(touched := old(view).touched)
    {
      TouchRepresents(saved, savedView, savedView.(touched := view.touched));
      store := saved;
      view := savedView.(touched := view.touched);
    }
  }
}
