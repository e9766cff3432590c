/** The byte layout of keys and values in the key-value store. */
module Codec {
  import opened Base
  import opened Storage

  // ----- Big-endian integers -----

  function PowerOf256(n: nat): (p: nat)
    ensures p > 0
  {
    if n == 0 then 1 else 256 * PowerOf256(n - 1)
  }

  function PutUint(x: nat, n: nat): (b: Bytes)
    ensures |b| == n
  {
    if n == 0 then [] else PutUint(x / 256, n - 1) + [x % 256]
  }

  function GetUint(b: Bytes): nat {
    if b == [] then 0 else GetUint(b[..|b| - 1]) * 256 + b[|b| - 1]
  }

  lemma {:induction false} GetAfterPut(x: nat, n: nat)
    requires x < PowerOf256(n)
    ensures GetUint(PutUint(x, n)) == x
    decreases n
  {
    if n > 0 {
      var b := PutUint(x, n);
      assert b[..n - 1] == PutUint(x / 256, n - 1);
      GetAfterPut(x / 256, n - 1);
    }
  }

  lemma {:induction false} GetBounded(b: Bytes)
    ensures GetUint(b) < PowerOf256(|b|)
  {
    if b != [] {
      GetBounded(b[..|b| - 1]);
    }
  }

  lemma LowestByte(high: nat, low: Byte)
    ensures (high * 256 + low) / 256 == high && (high * 256 + low) % 256 == low
  {}

  lemma {:induction false} PutAfterGet(b: Bytes)
    ensures PutUint(GetUint(b), |b|) == b
  {
    if b != [] {
      var front, last := b[..|b| - 1], b[|b| - 1];
      PutAfterGet(front);
      LowestByte(GetUint(front), last);
      assert b == front + [last];
    }
  }

  lemma Eight()
    ensures PowerOf256(8) == TWO_64
  {
    assert PowerOf256(2) == 0x1_0000 && PowerOf256(4) == 0x1_0000_0000;
    assert PowerOf256(6) == 0x1_0000_0000_0000;
  }

  function PutUint64(x: uint64): (b: Bytes)
    ensures |b| == 8
  {
    PutUint(x, 8)
  }

  function GetUint64(b: Bytes): (x: uint64)
    requires |b| == 8
  {
    GetBounded(b);
    Eight();
    GetUint(b)
  }

  lemma Uint64RoundTrip(x: uint64)
    ensures GetUint64(PutUint64(x)) == x
  {
    Eight();
    GetAfterPut(x, 8);
  }

  lemma BytesRoundTrip(b: Bytes)
    requires |b| == 8
    ensures PutUint64(GetUint64(b)) == b
  {
    PutAfterGet(b);
  }

  // ----- Values -----

  function EncodeBalance(b: Balance): (v: Bytes)
    ensures |v| == 16
  {
    PutUint64(b.unlocked) + PutUint64(b.locked)
  }

  function DecodeBalance(v: Bytes): Balance
    requires |v| == 16
  {
    Balance(GetUint64(v[..8]), GetUint64(v[8..]))
  }

  function EncodePermissions(p: Permissions): (v: Bytes)
    ensures |v| == 2
  {
    [p.action, p.misc]
  }

  function DecodePermissions(v: Bytes): Permissions
    requires |v| == 2
  {
    Permissions(v[0], v[1])
  }

  function EncodeContent(c: Content): (v: Bytes)
    ensures |v| == 40
  {
    c.owner.bytes + PutUint64(c.royalty)
  }

  function DecodeContent(v: Bytes): Content
    requires |v| == 40
  {
    Content(PublicKey(v[..32]), GetUint64(v[32..]))
  }

  /** Decoding undoes encoding for every value, and encoding undoes decoding for every
      byte string of the right length. */
  lemma BalanceRoundTrip(b: Balance, v: Bytes)
    requires |v| == 16
    ensures DecodeBalance(EncodeBalance(b)) == b
    ensures EncodeBalance(DecodeBalance(v)) == v
  {
    Uint64RoundTrip(b.unlocked);
    Uint64RoundTrip(b.locked);
    assert EncodeBalance(b)[..8] == PutUint64(b.unlocked) && EncodeBalance(b)[8..] == PutUint64(b.locked);
    BytesRoundTrip(v[..8]);
    BytesRoundTrip(v[8..]);
    assert v == v[..8] + v[8..];
  }

  lemma PermissionsRoundTrip(p: Permissions, v: Bytes)
    requires |v| == 2
    ensures DecodePermissions(EncodePermissions(p)) == p
    ensures EncodePermissions(DecodePermissions(v)) == v
  {
    assert v == [v[0], v[1]];
  }

  lemma ContentRoundTrip(c: Content, v: Bytes)
    requires |v| == 40
    ensures DecodeContent(EncodeContent(c)) == c
    ensures EncodeContent(DecodeContent(v)) == v
  {
    Uint64RoundTrip(c.royalty);
    assert EncodeContent(c)[..32] == c.owner.bytes && EncodeContent(c)[32..] == PutUint64(c.royalty);
    BytesRoundTrip(v[32..]);
    assert v == v[..32] + v[32..];
  }

  // ----- The layout itself -----

  lemma GetUintSnoc(b: Bytes, n: nat)
    requires n < |b|
    ensures GetUint(b[..n + 1]) == GetUint(b[..n]) * 256 + b[n]
  {
    assert b[..n + 1][..n] == b[..n];
  }

  lemma NextFour(b: Bytes, n: nat)
    requires n + 4 <= |b|
    ensures GetUint(b[..n + 4]) == GetUint(b[..n]) * 0x1_0000_0000
      + b[n] as int * 0x100_0000 + b[n + 1] as int * 0x1_0000 + b[n + 2] as int * 0x100 + b[n + 3] as int
  {
    GetUintSnoc(b, n); GetUintSnoc(b, n + 1); GetUintSnoc(b, n + 2); GetUintSnoc(b, n + 3);
  }

  /** The most significant byte comes first. */
  lemma BigEndian(b: Bytes)
    requires |b| == 8
    ensures GetUint64(b) as int ==
      (b[0] as int * 0x100_0000 + b[1] as int * 0x1_0000 + b[2] as int * 0x100 + b[3] as int) * 0x1_0000_0000
      + b[4] as int * 0x100_0000 + b[5] as int * 0x1_0000 + b[6] as int * 0x100 + b[7] as int
  {
    NextFour(b, 0);
    NextFour(b, 4);
    assert b[..8] == b && b[..0] == [];
  }

  /** Unlocked before locked, action bits before the others, owner before royalty. */
  lemma ValueLayout(b: Balance, p: Permissions, c: Content)
    ensures GetUint64(EncodeBalance(b)[..8]) == b.unlocked && GetUint64(EncodeBalance(b)[8..]) == b.locked
    ensures EncodePermissions(p)[0] == p.action && EncodePermissions(p)[1] == p.misc
    ensures EncodeContent(c)[..32] == c.owner.bytes && GetUint64(EncodeContent(c)[32..]) == c.royalty
  {
    Uint64RoundTrip(b.unlocked);
    Uint64RoundTrip(b.locked);
    Uint64RoundTrip(c.royalty);
    assert EncodeBalance(b)[..8] == PutUint64(b.unlocked) && EncodeBalance(b)[8..] == PutUint64(b.locked);
    assert EncodeContent(c)[32..] == PutUint64(c.royalty);
  }

  // ----- Keys -----

  const BALANCE_PREFIX: Byte := 0
  const PERMISSIONS_PREFIX: Byte := 1
  const CONTENT_PREFIX: Byte := 2

  function PrefixBalanceKey(pk: PublicKey): Bytes {
    [BALANCE_PREFIX] + pk.bytes
  }

  function PrefixContentKey(id: ID): Bytes {
    [CONTENT_PREFIX] + id.bytes
  }

  function PrefixPermissionsKey(actor: PublicKey, signer: PublicKey): Bytes {
    [PERMISSIONS_PREFIX] + actor.bytes + signer.bytes
  }

  function KeyBytes(k: Key): Bytes {
    match k
    case BalanceKey(pk) => PrefixBalanceKey(pk)
    case PermissionsKey(g) => PrefixPermissionsKey(g.actor, g.signer)
    case ContentKey(id) => PrefixContentKey(id)
  }

  /** Reads a key back from its bytes. */
  function ParseKey(b: Bytes): (k: Key)
    requires |b| == 33 || |b| == 65
  {
    if b[0] == BALANCE_PREFIX then BalanceKey(PublicKey(b[1..33]))
    else if b[0] == PERMISSIONS_PREFIX && |b| == 65 then
      PermissionsKey(Grant(PublicKey(b[1..33]), PublicKey(b[33..65])))
    else ContentKey(ID(b[1..33]))
  }

  lemma ParseKeyRoundTrip(k: Key)
    ensures |KeyBytes(k)| == 33 || |KeyBytes(k)| == 65
    ensures ParseKey(KeyBytes(k)) == k
  {
    var b := KeyBytes(k);
    match k
    case BalanceKey(pk) => assert b[1..33] == pk.bytes;
    case PermissionsKey(g) => assert b[1..33] == g.actor.bytes && b[33..65] == g.signer.bytes;
    case ContentKey(id) => assert b[1..33] == id.bytes;
  }

  /** Keys of all three kinds are injective and pairwise disjoint. */
  lemma KeysInjective(k: Key, k': Key)
    requires KeyBytes(k) == KeyBytes(k')
    ensures k == k'
  {
    ParseKeyRoundTrip(k);
    ParseKeyRoundTrip(k');
  }

  /** One byte for the kind of key, then the identifiers it is made of, the actor's before the
      signer's. */
  lemma KeyLayout(pk: PublicKey, g: Grant, id: ID)
    ensures var b := KeyBytes(BalanceKey(pk)); |b| == 33 && b[0] == 0 && b[1..] == pk.bytes
    ensures var b := KeyBytes(PermissionsKey(g));
      |b| == 65 && b[0] == 1 && b[1..33] == g.actor.bytes && b[33..] == g.signer.bytes
    ensures var b := KeyBytes(ContentKey(id)); |b| == 33 && b[0] == 2 && b[1..] == id.bytes
  {}
}
