/** The hash table that grows while it is used. During an expansion a key lives in the old
    table or the new one, depending on how far the migration cursor has come; every
    operation and every migration step keeps the two tables looking like one finite map. */
module Assoc {
  import opened Numbers
  import opened Options

  type Key = seq<bv8>
  datatype Item = Item(key: Key, data: seq<bv8>)

  /** A bucket: the items on one `h_next` chain, head first. */
  type Chain = seq<Item>

  /** The hash function stays unknown; only its low bits are ever used. */
  type Hash = Key -> nat

  /** `cursor` is expand_bucket: old buckets below it have been migrated. */
  datatype Table = Table(power: nat, primary: seq<Chain>, former: seq<Chain>, expanding: bool, cursor: nat)

  // ---- where a hash value lives ----

  predicate Shaped(t: Table) {
    && |t.primary| == Pow2(t.power)
    && (t.expanding ==> t.power >= 1 && |t.former| == Pow2(t.power - 1) && t.cursor < |t.former|)
  }

  predicate InOld(t: Table, hv: nat) {
    t.expanding && t.power >= 1 && LowBits(hv, t.power - 1) >= t.cursor
  }

  function Bucket(t: Table, hv: nat): Chain
    requires Shaped(t)
  {
    if InOld(t, hv) then t.former[LowBits(hv, t.power - 1)] else t.primary[LowBits(hv, t.power)]
  }

  function SetBucket(t: Table, hv: nat, c: Chain): (t': Table)
    requires Shaped(t)
    ensures Shaped(t') && Bucket(t', hv) == c
  {
    if InOld(t, hv) then t.(former := t.former[LowBits(hv, t.power - 1) := c])
    else t.(primary := t.primary[LowBits(hv, t.power) := c])
  }

  /** Position of the first item with this key, or the chain's length. */
  function Position(c: Chain, key: Key): (i: nat)
    ensures i <= |c| && (i < |c| ==> c[i].key == key)
    ensures forall j :: 0 <= j < i ==> c[j].key != key
  {
    if |c| == 0 || c[0].key == key then 0 else 1 + Position(c[1..], key)
  }

  // ---- the operations ----

  /** The chain after assoc_delete unhooks the item. */
  function Without(c: Chain, key: Key): Chain {
    var i := Position(c, key);
    if i < |c| then c[..i] + c[i + 1..] else c
  }

  function Find(t: Table, key: Key, hv: nat): Option<Item>
    requires Shaped(t)
  {
    var c := Bucket(t, hv);
    var i := Position(c, key);
    if i < |c| then Some(c[i]) else None
  }

  function Insert(t: Table, it: Item, hv: nat): Table
    requires Shaped(t)
  {
    SetBucket(t, hv, [it] + Bucket(t, hv))
  }

  function Delete(t: Table, key: Key, hv: nat): Table
    requires Shaped(t)
  {
    SetBucket(t, hv, Without(Bucket(t, hv), key))
  }

  /** assoc_expand; with `calloc` failing the table stays as it was. */
  function Expand(t: Table, granted: bool): Table
    requires Shaped(t) && !t.expanding
  {
    if granted
    then Table(t.power + 1, seq(Pow2(t.power + 1), _ => []), t.primary, true, 0)
    else t
  }

  /** Each item in turn pushed on the head of its bucket in a table of `power` bits. */
  function Push(p: seq<Chain>, c: Chain, hash: Hash, power: nat): (p': seq<Chain>)
    requires |p| == Pow2(power)
    ensures |p'| == |p|
    decreases |c|
  {
    if |c| == 0 then p
    else
      var b := LowBits(hash(c[0].key), power);
      Push(p[b := [c[0]] + p[b]], c[1..], hash, power)
  }

  /** One turn of the maintenance loop that got its item lock. */
  function Migrate(t: Table, hash: Hash): (t': Table)
    requires Shaped(t) && t.expanding
    ensures Shaped(t')
  {
    var p := Push(t.primary, t.former[t.cursor], hash, t.power);
    var o := t.former[t.cursor := []];
    if t.cursor + 1 == |t.former|
    then Table(t.power, p, [], false, t.cursor + 1)
    else Table(t.power, p, o, true, t.cursor + 1)
  }

  // ---- the invariant ----

  predicate NoKeyTwice(c: Chain) {
    forall i, j :: 0 <= i < j < |c| ==> c[i].key != c[j].key
  }

  /** Every item sits in the bucket its hash selects, keys do not repeat on a chain, migrated
      old buckets are empty and new buckets ahead of the cursor are empty. */
  ghost predicate Valid(t: Table, hash: Hash) {
    && Shaped(t)
    && (forall b, it :: 0 <= b < |t.primary| && it in t.primary[b] ==> LowBits(hash(it.key), t.power) == b)
    && (forall b :: 0 <= b < |t.primary| ==> NoKeyTwice(t.primary[b]))
    && (t.expanding ==>
          && (forall b, it :: 0 <= b < |t.former| && it in t.former[b] ==> LowBits(hash(it.key), t.power - 1) == b)
          && (forall b :: 0 <= b < |t.former| ==> NoKeyTwice(t.former[b]))
          && (forall b :: 0 <= b < t.cursor ==> t.former[b] == [])
          && (forall b :: 0 <= b < |t.primary| && LowBits(b, t.power - 1) >= t.cursor ==> t.primary[b] == []))
  }

  /** The finite map the two tables and the cursor stand for. */
  ghost predicate Represents(t: Table, hash: Hash, m: map<Key, Item>)
    requires Shaped(t)
  {
    && (forall k :: k in m ==> m[k].key == k)
    && forall it: Item :: it in Bucket(t, hash(it.key)) <==> it.key in m && m[it.key] == it
  }

  // ---- each operation refines the map operation ----

  /** assoc_init. */
  function Blank(power: nat): (t: Table)
    ensures Shaped(t)
  {
    Table(power, seq(Pow2(power), _ => []), [], false, 0)
  }

  lemma EmptyTable(power: nat, hash: Hash)
    ensures Valid(Blank(power), hash) && Represents(Blank(power), hash, map[])
  {}

  /** Lookup is map lookup: found exactly when present, with the mapped item. */
  lemma FindRefines(t: Table, hash: Hash, m: map<Key, Item>, key: Key)
    requires Valid(t, hash) && Represents(t, hash, m)
    ensures Find(t, key, hash(key)) == if key in m then Some(m[key]) else None
  {
    var c := Bucket(t, hash(key));
    var i := Position(c, key);
    if key in m {
      assert m[key] in c;
    }
    if i < |c| {
      assert c[i] in c;
    }
  }

  /** Two hash values select the same chain. */
  predicate SameChain(t: Table, a: nat, b: nat) {
    && InOld(t, a) == InOld(t, b)
    && (if InOld(t, a) then LowBits(a, t.power - 1) == LowBits(b, t.power - 1)
      else LowBits(a, t.power) == LowBits(b, t.power))
  }

  /** A bucket change is invisible to hash values that select another bucket. */
  lemma SetBucketElsewhere(t: Table, hv: nat, hv': nat, c: Chain)
    requires Shaped(t)
    ensures Bucket(SetBucket(t, hv, c), hv') == if SameChain(t, hv, hv') then c else Bucket(t, hv')
  {}

  /** In a valid table an item is on a chain only if its own hash selects that chain. */
  lemma ChainMembers(t: Table, hash: Hash, hv: nat, it: Item)
    requires Valid(t, hash) && it in Bucket(t, hv)
    ensures SameChain(t, hv, hash(it.key))
  {
    if InOld(t, hv) {
    } else {
      assert LowBits(hash(it.key), t.power) == LowBits(hv, t.power);
      if t.expanding {
        LowBitsOfLowBits(hv, t.power - 1, t.power);
        LowBitsOfLowBits(hash(it.key), t.power - 1, t.power);
      }
    }
  }

  lemma SetOldValid(t: Table, hash: Hash, hv: nat, c: Chain)
    requires Valid(t, hash) && NoKeyTwice(c) && InOld(t, hv)
    requires forall it :: it in c ==> SameChain(t, hv, hash(it.key))
    ensures Valid(t.(former := t.former[LowBits(hv, t.power - 1) := c]), hash)
  {}

  lemma SetNewValid(t: Table, hash: Hash, hv: nat, c: Chain)
    requires Valid(t, hash) && NoKeyTwice(c) && !InOld(t, hv)
    requires forall it :: it in c ==> SameChain(t, hv, hash(it.key))
    ensures Valid(t.(primary := t.primary[LowBits(hv, t.power) := c]), hash)
  {
    if t.expanding {
      LowBitsOfLowBits(hv, t.power - 1, t.power);
    }
  }

  lemma SetBucketValid(t: Table, hash: Hash, hv: nat, c: Chain)
    requires Valid(t, hash) && NoKeyTwice(c)
    requires forall it :: it in c ==> SameChain(t, hv, hash(it.key))
    ensures Valid(SetBucket(t, hv, c), hash)
  {
    var t' := SetBucket(t, hv, c);
    if InOld(t, hv) {
      assert t' == t.(former := t.former[LowBits(hv, t.power - 1) := c]);
      SetOldValid(t, hash, hv, c);
    } else {
      assert t' == t.(primary := t.primary[LowBits(hv, t.power) := c]);
      SetNewValid(t, hash, hv, c);
    }
  }

  lemma InsertValid(t: Table, hash: Hash, m: map<Key, Item>, it: Item)
    requires Valid(t, hash) && Represents(t, hash, m) && it.key !in m
    ensures Valid(Insert(t, it, hash(it.key)), hash)
  {
    var hv := hash(it.key);
    var c := Bucket(t, hv);
    forall x | x in c
      ensures SameChain(t, hv, hash(x.key)) && x.key != it.key
    {
      ChainMembers(t, hash, hv, x);
    }
    SetBucketValid(t, hash, hv, [it] + c);
  }

  lemma InsertAt(t: Table, hash: Hash, m: map<Key, Item>, it: Item, x: Item)
    requires Shaped(t) && it.key !in m && (x in Bucket(t, hash(x.key)) <==> x.key in m && m[x.key] == x)
    ensures x in Bucket(Insert(t, it, hash(it.key)), hash(x.key)) <==>
      x.key in m[it.key := it] && m[it.key := it][x.key] == x
  {
    var hv := hash(it.key);
    SetBucketElsewhere(t, hv, hash(x.key), [it] + Bucket(t, hv));
    assert x in [it] + Bucket(t, hv) <==> x == it || x in Bucket(t, hv);
  }

  lemma InsertRepresents(t: Table, hash: Hash, m: map<Key, Item>, it: Item, t': Table, m': map<Key, Item>)
    requires Shaped(t) && Represents(t, hash, m) && it.key !in m && t' == Insert(t, it, hash(it.key))
      && m' == m[it.key := it]
    ensures Shaped(t') && Represents(t', hash, m')
  {
    forall x: Item
      ensures x in Bucket(t', hash(x.key)) <==> x.key in m' && m'[x.key] == x
    {
      InsertAt(t, hash, m, it, x);
    }
  }

  lemma InsertRefines(t: Table, hash: Hash, m: map<Key, Item>, it: Item)
    requires Valid(t, hash) && Represents(t, hash, m) && it.key !in m
    ensures var t' := Insert(t, it, hash(it.key));
      Valid(t', hash) && Represents(t', hash, m[it.key := it])
  {
    InsertValid(t, hash, m, it);
    InsertRepresents(t, hash, m, it, Insert(t, it, hash(it.key)), m[it.key := it]);
  }

  /** Where the items of a chain are once one has been taken out. */
  lemma CutAt(c: Chain, i: nat, j: nat)
    requires i < |c| && j < |c| && j != i
    ensures var d := c[..i] + c[i + 1..]; |d| == |c| - 1 && d[if j < i then j else j - 1] == c[j]
  {}

  lemma CutKeeps(c: Chain, i: nat)
    requires NoKeyTwice(c) && i < |c|
    ensures NoKeyTwice(c[..i] + c[i + 1..]) && forall x :: x in c[..i] + c[i + 1..] <==> x in c && x.key != c[i].key
  {
    var d := c[..i] + c[i + 1..];
    forall k | 0 <= k < |d|
      ensures d[k] == c[if k < i then k else k + 1]
    {
      CutAt(c, i, if k < i then k else k + 1);
    }
    forall x | x in c && x.key != c[i].key
      ensures x in d
    {
      var j :| 0 <= j < |c| && c[j] == x;
      CutAt(c, i, j);
    }
  }

  lemma WithoutKey(c: Chain, key: Key)
    requires NoKeyTwice(c)
    ensures NoKeyTwice(Without(c, key))
    ensures forall x :: x in Without(c, key) <==> x in c && x.key != key
  {
    var i := Position(c, key);
    if i < |c| {
      CutKeeps(c, i);
    }
  }

  lemma ChainDistinct(t: Table, hash: Hash, hv: nat)
    requires Valid(t, hash)
    ensures NoKeyTwice(Bucket(t, hv))
  {}

  lemma DeleteValid(t: Table, hash: Hash, key: Key)
    requires Valid(t, hash)
    ensures Valid(Delete(t, key, hash(key)), hash)
  {
    var hv := hash(key);
    var c := Bucket(t, hv);
    ChainDistinct(t, hash, hv);
    WithoutKey(c, key);
    forall x | x in Without(c, key)
      ensures SameChain(t, hv, hash(x.key))
    {
      ChainMembers(t, hash, hv, x);
    }
    SetBucketValid(t, hash, hv, Without(c, key));
  }

  lemma DeleteAt(t: Table, hash: Hash, m: map<Key, Item>, key: Key, x: Item)
    requires Shaped(t) && NoKeyTwice(Bucket(t, hash(key)))
      && (x in Bucket(t, hash(x.key)) <==> x.key in m && m[x.key] == x)
    ensures x in Bucket(Delete(t, key, hash(key)), hash(x.key)) <==> x.key in m - {key} && (m - {key})[x.key] == x
  {
    var hv := hash(key);
    WithoutKey(Bucket(t, hv), key);
    SetBucketElsewhere(t, hv, hash(x.key), Without(Bucket(t, hv), key));
  }

  lemma DeleteRepresents(t: Table, hash: Hash, m: map<Key, Item>, key: Key, t': Table, m': map<Key, Item>)
    requires Shaped(t) && NoKeyTwice(Bucket(t, hash(key))) && Represents(t, hash, m)
    requires t' == Delete(t, key, hash(key)) && m' == m - {key}
    ensures Shaped(t') && Represents(t', hash, m')
  {
    forall x: Item
      ensures x in Bucket(t', hash(x.key)) <==> x.key in m' && m'[x.key] == x
    {
      DeleteAt(t, hash, m, key, x);
    }
  }

  lemma DeleteRefines(t: Table, hash: Hash, m: map<Key, Item>, key: Key)
    requires Valid(t, hash) && Represents(t, hash, m) && key in m
    ensures var t' := Delete(t, key, hash(key));
      Valid(t', hash) && Represents(t', hash, m - {key})
  {
    DeleteValid(t, hash, key);
    ChainDistinct(t, hash, hash(key));
    DeleteRepresents(t, hash, m, key, Delete(t, key, hash(key)), m - {key});
  }

  lemma ExpandRefines(t: Table, hash: Hash, m: map<Key, Item>, granted: bool)
    requires Valid(t, hash) && Represents(t, hash, m) && !t.expanding
    ensures var t' := Expand(t, granted);
      Valid(t', hash) && Represents(t', hash, m)
  {}

  // ---- migration ----

  /** The items of a chain that go to new bucket `b`, in the order they end up: pushing at the
      head reverses them. */
  function Selected(c: Chain, hash: Hash, power: nat, b: nat): Chain
    decreases |c|
  {
    if |c| == 0 then []
    else Selected(c[1..], hash, power, b) + if LowBits(hash(c[0].key), power) == b then [c[0]] else []
  }

  lemma {:induction false} PushAt(p: seq<Chain>, c: Chain, hash: Hash, power: nat, b: nat)
    requires |p| == Pow2(power) && b < |p|
    ensures Push(p, c, hash, power)[b] == Selected(c, hash, power, b) + p[b]
    decreases |c|
  {
    if |c| > 0 {
      var b0 := LowBits(hash(c[0].key), power);
      PushAt(p[b0 := [c[0]] + p[b0]], c[1..], hash, power, b);
    }
  }

  lemma {:induction false} SelectedMembers(c: Chain, hash: Hash, power: nat, b: nat)
    ensures forall x :: x in Selected(c, hash, power, b) <==> x in c && LowBits(hash(x.key), power) == b
    decreases |c|
  {
    if |c| > 0 {
      SelectedMembers(c[1..], hash, power, b);
      assert forall x :: x in c <==> x == c[0] || x in c[1..];
    }
  }

  lemma {:induction false} SelectedDistinct(c: Chain, hash: Hash, power: nat, b: nat)
    requires NoKeyTwice(c)
    ensures NoKeyTwice(Selected(c, hash, power, b))
    decreases |c|
  {
    if |c| > 0 {
      SelectedDistinct(c[1..], hash, power, b);
      SelectedMembers(c[1..], hash, power, b);
      var s := Selected(c[1..], hash, power, b);
      assert forall i :: 0 <= i < |s| ==> s[i] in c[1..];
    }
  }

  /** Nothing on the old bucket being migrated belongs to a new bucket with other low bits. */
  lemma NoneSelected(t: Table, hash: Hash, b: nat)
    requires Valid(t, hash) && t.expanding && LowBits(b, t.power - 1) != t.cursor
    ensures Selected(t.former[t.cursor], hash, t.power, b) == []
  {
    var c := t.former[t.cursor];
    var s := Selected(c, hash, t.power, b);
    if |s| > 0 {
      SelectedMembers(c, hash, t.power, b);
      assert s[0] in c;
      LowBitsOfLowBits(hash(s[0].key), t.power - 1, t.power);
      assert false;
    }
  }

  /** What one migration step does to new bucket `b`: it fills the two buckets whose low bits
      are the cursor, which were empty, and touches no other. */
  lemma MigrateAt(t: Table, hash: Hash, b: nat)
    requires Valid(t, hash) && t.expanding && b < |t.primary|
    ensures Migrate(t, hash).primary[b]
      == if LowBits(b, t.power - 1) == t.cursor then Selected(t.former[t.cursor], hash, t.power, b) else t.primary[b]
  {
    PushAt(t.primary, t.former[t.cursor], hash, t.power, b);
    if LowBits(b, t.power - 1) != t.cursor {
      NoneSelected(t, hash, b);
    } else {
      assert t.primary[b] == [];
    }
  }

  /** Migrating old bucket `cursor` writes only new buckets `cursor` and `cursor + 2^(power-1)`. */
  lemma MigrateWrites(t: Table, hash: Hash, b: nat)
    requires Valid(t, hash) && t.expanding && b < |t.primary|
    requires b != t.cursor && b != t.cursor + Pow2(t.power - 1)
    ensures Migrate(t, hash).primary[b] == t.primary[b]
  {
    MigrateAt(t, hash, b);
    assert LowBits(b, t.power - 1) != t.cursor by {
      LowBitsSmall(b, t.power);
      LowBitsOneMore(b, t.power - 1);
    }
  }

  lemma MigrateValid(t: Table, hash: Hash)
    requires Valid(t, hash) && t.expanding
    ensures Valid(Migrate(t, hash), hash)
  {
    var t' := Migrate(t, hash);
    var c := t.former[t.cursor];
    forall b: nat | b < |t'.primary|
      ensures NoKeyTwice(t'.primary[b])
      ensures forall it :: it in t'.primary[b] ==> LowBits(hash(it.key), t.power) == b
      ensures LowBits(b, t.power - 1) > t.cursor ==> t'.primary[b] == []
    {
      MigrateAt(t, hash, b);
      SelectedMembers(c, hash, t.power, b);
      SelectedDistinct(c, hash, t.power, b);
    }
  }

  lemma BucketMoved(t: Table, hash: Hash, hv: nat)
    requires Shaped(t) && t.expanding && LowBits(hv, t.power - 1) == t.cursor
    ensures Bucket(Migrate(t, hash), hv) == Migrate(t, hash).primary[LowBits(hv, t.power)]
  {}

  lemma MovedIs(t: Table, hash: Hash, hv: nat)
    requires Valid(t, hash) && t.expanding && LowBits(hv, t.power - 1) == t.cursor
    ensures Migrate(t, hash).primary[LowBits(hv, t.power)]
      == Selected(t.former[t.cursor], hash, t.power, LowBits(hv, t.power))
  {
    LowBitsOfLowBits(hv, t.power - 1, t.power);
    MigrateAt(t, hash, LowBits(hv, t.power));
  }

  lemma MigrateHere(t: Table, hash: Hash, it: Item)
    requires Valid(t, hash) && t.expanding && LowBits(hash(it.key), t.power - 1) == t.cursor
    ensures it in Bucket(Migrate(t, hash), hash(it.key)) <==> it in t.former[t.cursor]
  {
    var hv := hash(it.key);
    BucketMoved(t, hash, hv);
    MovedIs(t, hash, hv);
    SelectedMembers(t.former[t.cursor], hash, t.power, LowBits(hv, t.power));
  }

  /** A migration step is invisible to every key. */
  lemma MigrateBucket(t: Table, hash: Hash, it: Item)
    requires Valid(t, hash) && t.expanding
    ensures it in Bucket(Migrate(t, hash), hash(it.key)) <==> it in Bucket(t, hash(it.key))
  {
    if LowBits(hash(it.key), t.power - 1) == t.cursor {
      MigrateHere(t, hash, it);
    } else {
      NotSelected(t, hash, hash(it.key));
      MigrateBeside(t, hash, hash(it.key), []);
    }
  }

  lemma MigrateRefines(t: Table, hash: Hash, m: map<Key, Item>)
    requires Valid(t, hash) && Represents(t, hash, m) && t.expanding
    ensures Valid(Migrate(t, hash), hash) && Represents(Migrate(t, hash), hash, m)
  {
    MigrateValid(t, hash);
    forall it: Item
      ensures it in Bucket(Migrate(t, hash), hash(it.key)) <==> it.key in m && m[it.key] == it
    {
      MigrateBucket(t, hash, it);
    }
  }

  // ---- migration beside other operations ----

  /** The item lock a hash value takes, with 2^locks locks. */
  function LockOf(hv: nat, locks: nat): nat {
    LowBits(hv, locks)
  }

  lemma OtherLock(t: Table, hv: nat, locks: nat)
    requires Shaped(t) && t.expanding && locks <= t.power - 1
    requires LockOf(hv, locks) != LockOf(t.cursor, locks)
    ensures LowBits(hv, t.power - 1) != t.cursor
  {
    LowBitsOfLowBits(hv, locks, t.power - 1);
  }

  lemma NotSelected(t: Table, hash: Hash, hv: nat)
    requires Valid(t, hash) && t.expanding && LowBits(hv, t.power - 1) != t.cursor
    ensures Selected(t.former[t.cursor], hash, t.power, LowBits(hv, t.power)) == []
  {
    LowBitsOfLowBits(hv, t.power - 1, t.power);
    NoneSelected(t, hash, LowBits(hv, t.power));
  }

  /** A bucket that nothing is pushed on can be replaced before or after the pushing. */
  lemma PushBeside(p: seq<Chain>, moved: Chain, hash: Hash, power: nat, b: nat, c: Chain)
    requires |p| == Pow2(power) && b < |p| && Selected(moved, hash, power, b) == []
    ensures Push(p, moved, hash, power)[b] == p[b]
    ensures Push(p[b := c], moved, hash, power) == Push(p, moved, hash, power)[b := c]
  {
    PushAt(p, moved, hash, power, b);
    var before, after := Push(p[b := c], moved, hash, power), Push(p, moved, hash, power)[b := c];
    forall i: nat | i < |p|
      ensures before[i] == after[i]
    {
      PushAt(p[b := c], moved, hash, power, i);
      PushAt(p, moved, hash, power, i);
    }
  }

  lemma MigrateBeside(t: Table, hash: Hash, hv: nat, c: Chain)
    requires Shaped(t) && t.expanding && LowBits(hv, t.power - 1) != t.cursor
    requires Selected(t.former[t.cursor], hash, t.power, LowBits(hv, t.power)) == []
    ensures Bucket(Migrate(t, hash), hv) == Bucket(t, hv)
    ensures SetBucket(Migrate(t, hash), hv, c) == Migrate(SetBucket(t, hv, c), hash)
  {
    PushBeside(t.primary, t.former[t.cursor], hash, t.power, LowBits(hv, t.power), c);
    if InOld(t, hv) {
      var low := LowBits(hv, t.power - 1);
      assert t.former[low := c][t.cursor := []] == t.former[t.cursor := []][low := c];
    }
  }

  /** Under another item lock, reading or replacing a bucket and migrating commute. */
  lemma MigrateCommutes(t: Table, hash: Hash, hv: nat, c: Chain, locks: nat)
    requires Valid(t, hash) && t.expanding && locks <= t.power - 1
    requires LockOf(hv, locks) != LockOf(t.cursor, locks)
    ensures Bucket(Migrate(t, hash), hv) == Bucket(t, hv)
    ensures SetBucket(Migrate(t, hash), hv, c) == Migrate(SetBucket(t, hv, c), hash)
  {
    OtherLock(t, hv, locks);
    NotSelected(t, hash, hv);
    MigrateBeside(t, hash, hv, c);
  }

  /** Find, insert and delete under other locks therefore give the same results and the same
      table whichever side of the migration step they fall. */
  lemma OperationsCommute(t: Table, hash: Hash, it: Item, key: Key, hv: nat, locks: nat)
    requires Valid(t, hash) && t.expanding && locks <= t.power - 1
    requires LockOf(hv, locks) != LockOf(t.cursor, locks)
    ensures Find(Migrate(t, hash), key, hv) == Find(t, key, hv)
    ensures Insert(Migrate(t, hash), it, hv) == Migrate(Insert(t, it, hv), hash)
    ensures Delete(Migrate(t, hash), key, hv) == Migrate(Delete(t, key, hv), hash)
  {
    MigrateCommutes(t, hash, hv, [it] + Bucket(t, hv), locks);
    MigrateCommutes(t, hash, hv, Without(Bucket(t, hv), key), locks);
  }

  // ---- whole runs ----

  datatype Op = Put(it: Item) | Remove(key: Key) | Get(key: Key) | Grow(granted: bool) | Tick(locked: bool)

  /** What callers guarantee: no insert over a present key, no delete of an absent one, and
      an expansion starts only when none is running. */
  predicate Allowed(t: Table, m: map<Key, Item>, op: Op) {
    match op
    case Put(it) => it.key !in m
    case Remove(key) => key in m
    case Get(_) => true
    case Grow(_) => !t.expanding
    case Tick(_) => true
  }

  function StepTable(t: Table, hash: Hash, op: Op): (t': Table)
    requires Shaped(t) && (op.Grow? ==> !t.expanding)
    ensures Shaped(t')
  {
    match op
    case Put(it) => Insert(t, it, hash(it.key))
    case Remove(key) => Delete(t, key, hash(key))
    case Get(_) => t
    case Grow(granted) => Expand(t, granted)
    case Tick(locked) => if locked || !t.expanding then t else Migrate(t, hash)
  }

  function StepMap(m: map<Key, Item>, op: Op): map<Key, Item> {
    match op
    case Put(it) => m[it.key := it]
    case Remove(key) => m - {key}
    case _ => m
  }

  predicate AllAllowed(t: Table, hash: Hash, m: map<Key, Item>, ops: seq<Op>)
    requires Shaped(t)
    decreases |ops|
  {
    |ops| == 0 ||
    (Allowed(t, m, ops[0]) && AllAllowed(StepTable(t, hash, ops[0]), hash, StepMap(m, ops[0]), ops[1..]))
  }

  /** The answers of the lookups in a run over the table... */
  function Answers(t: Table, hash: Hash, m: map<Key, Item>, ops: seq<Op>): seq<Option<Item>>
    requires Shaped(t) && AllAllowed(t, hash, m, ops)
    decreases |ops|
  {
    if |ops| == 0 then []
    else
      var rest := Answers(StepTable(t, hash, ops[0]), hash, StepMap(m, ops[0]), ops[1..]);
      if ops[0].Get? then [Find(t, ops[0].key, hash(ops[0].key))] + rest else rest
  }

  /** ... and in the same run over the finite map. */
  function MapAnswers(m: map<Key, Item>, ops: seq<Op>): seq<Option<Item>>
    decreases |ops|
  {
    if |ops| == 0 then []
    else
      var rest := MapAnswers(StepMap(m, ops[0]), ops[1..]);
      if ops[0].Get? then [if ops[0].key in m then Some(m[ops[0].key]) else None] + rest else rest
  }

  lemma StepRefines(t: Table, hash: Hash, m: map<Key, Item>, op: Op)
    requires Valid(t, hash) && Represents(t, hash, m) && Allowed(t, m, op)
    ensures Valid(StepTable(t, hash, op), hash) && Represents(StepTable(t, hash, op), hash, StepMap(m, op))
  {
    match op
    case Put(it) => InsertRefines(t, hash, m, it);
    case Remove(key) => DeleteRefines(t, hash, m, key);
    case Get(_) =>
    case Grow(granted) => ExpandRefines(t, hash, m, granted);
    case Tick(locked) => if !locked && t.expanding { MigrateRefines(t, hash, m); }
  }

  /** Over any mix of inserts, deletes, lookups, expansions and migration steps the table
      answers every lookup as one finite map would. */
  lemma {:induction false} RunRefinesMap(t: Table, hash: Hash, m: map<Key, Item>, ops: seq<Op>)
    requires Valid(t, hash) && Represents(t, hash, m) && AllAllowed(t, hash, m, ops)
    ensures Answers(t, hash, m, ops) == MapAnswers(m, ops)
    decreases |ops|
  {
    if |ops| > 0 {
      StepRefines(t, hash, m, ops[0]);
      if ops[0].Get? {
        FindRefines(t, hash, m, ops[0].key);
      }
      RunRefinesMap(StepTable(t, hash, ops[0]), hash, StepMap(m, ops[0]), ops[1..]);
    }
  }

  /** So does a table that starts out empty. */
  lemma TableIsMap(power: nat, hash: Hash, ops: seq<Op>)
    requires AllAllowed(Blank(power), hash, map[], ops)
    ensures Answers(Blank(power), hash, map[], ops) == MapAnswers(map[], ops)
  {
    EmptyTable(power, hash);
    RunRefinesMap(Blank(power), hash, map[], ops);
  }

  // ---- how long an expansion lasts ----

  function After(t: Table, hash: Hash, m: map<Key, Item>, ops: seq<Op>): (t': Table)
    requires Shaped(t) && AllAllowed(t, hash, m, ops)
    decreases |ops|
  {
    if |ops| == 0 then t else After(StepTable(t, hash, ops[0]), hash, StepMap(m, ops[0]), ops[1..])
  }

  /** How many turns of the maintenance thread got their item lock. */
  function Turns(ops: seq<Op>): nat
    decreases |ops|
  {
    if |ops| == 0 then 0 else (if ops[0] == Tick(false) then 1 else 0) + Turns(ops[1..])
  }

  lemma SetBucketExpands(t: Table, hv: nat, c: Chain)
    requires Shaped(t)
    ensures var t' := SetBucket(t, hv, c);
      t'.expanding == t.expanding && t'.cursor == t.cursor && |t'.former| == |t.former|
  {}

  lemma MigrateExpands(t: Table, hash: Hash)
    requires Shaped(t) && t.expanding
    ensures var t' := Migrate(t, hash);
      if t.cursor + 1 < |t.former| then t'.expanding && t'.cursor == t.cursor + 1 && |t'.former| == |t.former|
      else !t'.expanding
  {}

  /** An operation does not end an expansion, unless it is the turn for the last bucket. */
  lemma StepExpands(t: Table, hash: Hash, m: map<Key, Item>, op: Op)
    requires Shaped(t) && t.expanding && Allowed(t, m, op)
    ensures var t' := StepTable(t, hash, op);
      if op != Tick(false) then t'.expanding && t'.cursor == t.cursor && |t'.former| == |t.former|
      else if t.cursor + 1 < |t.former| then t'.expanding && t'.cursor == t.cursor + 1 && |t'.former| == |t.former|
      else !t'.expanding
  {
    match op
    case Put(it) => SetBucketExpands(t, hash(it.key), [it] + Bucket(t, hash(it.key)));
    case Remove(key) => SetBucketExpands(t, hash(key), Without(Bucket(t, hash(key)), key));
    case Tick(locked) => MigrateExpands(t, hash);
    case _ =>
  }

  lemma {:induction false} StillExpanding(t: Table, hash: Hash, m: map<Key, Item>, ops: seq<Op>)
    requires Shaped(t) && t.expanding && AllAllowed(t, hash, m, ops) && t.cursor + Turns(ops) < |t.former|
    ensures After(t, hash, m, ops).expanding
    decreases |ops|
  {
    if |ops| > 0 {
      StepExpands(t, hash, m, ops[0]);
      StillExpanding(StepTable(t, hash, ops[0]), hash, StepMap(m, ops[0]), ops[1..]);
    }
  }

  lemma {:induction false} LastTurn(t: Table, hash: Hash, m: map<Key, Item>, ops: seq<Op>)
    requires Shaped(t) && t.expanding && AllAllowed(t, hash, m, ops)
    requires |ops| > 0 && ops[|ops| - 1] == Tick(false) && t.cursor + Turns(ops) == |t.former|
    ensures !After(t, hash, m, ops).expanding
    decreases |ops|
  {
    StepExpands(t, hash, m, ops[0]);
    if |ops| > 1 {
      TurnAtEnd(ops[1..]);
      LastTurn(StepTable(t, hash, ops[0]), hash, StepMap(m, ops[0]), ops[1..]);
    }
  }

  lemma {:induction false} TurnAtEnd(ops: seq<Op>)
    requires |ops| > 0 && ops[|ops| - 1] == Tick(false)
    ensures Turns(ops) > 0
    decreases |ops|
  {
    if |ops| > 1 {
      TurnAtEnd(ops[1..]);
    }
  }

  /** Whatever else happens to the table, an expansion is over at the turn of the maintenance thread
      that is the 2^power'th to get its item lock, and not before. */
  lemma ExpansionEnds(t: Table, hash: Hash, m: map<Key, Item>, ops: seq<Op>)
    requires Shaped(t) && !t.expanding && AllAllowed(Expand(t, true), hash, m, ops)
    ensures Turns(ops) < Pow2(t.power) ==> After(Expand(t, true), hash, m, ops).expanding
    ensures Turns(ops) == Pow2(t.power) && ops[|ops| - 1] == Tick(false) ==>
      !After(Expand(t, true), hash, m, ops).expanding
  {
    var t1 := Expand(t, true);
    ExpandStarts(t);
    if Turns(ops) < Pow2(t.power) {
      StillExpanding(t1, hash, m, ops);
    } else if Turns(ops) == Pow2(t.power) && ops[|ops| - 1] == Tick(false) {
      LastTurn(t1, hash, m, ops);
    }
  }

  lemma ExpandStarts(t: Table)
    requires Shaped(t) && !t.expanding
    ensures var t' := Expand(t, true); Shaped(t') && t'.expanding && t'.cursor == 0 && |t'.former| == Pow2(t.power)
  {}
}
