/**
 * The key/value store as an immutable value: sorted sets (member -> score),
 * hashes (field -> value), string sentinels, and the thing cache keyed by thing
 * id. Only single-key primitives are offered, as the backing store does; an
 * absent sorted set reads as the empty one.
 */
module Store {
  import opened Types
  import opened Constants

  type ZSet = map<string, nat>

  datatype Store = Store(
    zsets: map<Key, ZSet>,
    hashes: map<Key, Record>,
    strings: map<Key, string>,
    cache: map<string, CachedThing>)

  /** The sorted set under `k`; absent reads as empty. */
  function ZGet(s: Store, k: Key): ZSet {
    if k in s.zsets then s.zsets[k] else map[]
  }

  function Members(s: Store, k: Key): set<string> {
    ZGet(s, k).Keys
  }

  /** `zAdd`: inserts `member`, or overwrites its score when already present. */
  function ZAdd(s: Store, k: Key, member: string, score: nat): (r: Store)
    ensures ZGet(r, k) == ZGet(s, k)[member := score]
    ensures forall k' :: k' != k ==> ZGet(r, k') == ZGet(s, k')
    ensures r.hashes == s.hashes && r.strings == s.strings && r.cache == s.cache
  {
    s.(zsets := s.zsets[k := ZGet(s, k)[member := score]])
  }

  /** `zRem`: removes the members; the key disappears with its last member. */
  function ZRem(s: Store, k: Key, members: set<string>): (r: Store)
    ensures ZGet(r, k) == ZGet(s, k) - members
    ensures forall k' :: k' != k ==> ZGet(r, k') == ZGet(s, k')
    ensures r.hashes == s.hashes && r.strings == s.strings && r.cache == s.cache
  {
    var left := ZGet(s, k) - members;
    if left == map[] then s.(zsets := s.zsets - {k})
    else s.(zsets := s.zsets[k := left])
  }

  /** `del` of a sorted-set key. */
  function ZDel(s: Store, k: Key): (r: Store)
    ensures ZGet(r, k) == map[]
    ensures forall k' :: k' != k ==> ZGet(r, k') == ZGet(s, k')
    ensures r.hashes == s.hashes && r.strings == s.strings && r.cache == s.cache
  {
    s.(zsets := s.zsets - {k})
  }

  /** `hSet`: writes the given fields, keeping the hash's other fields. */
  function HSet(s: Store, k: Key, fields: Record): (r: Store)
    ensures k in r.hashes
    ensures forall f :: f in fields ==> f in r.hashes[k] && r.hashes[k][f] == fields[f]
    ensures k !in s.hashes ==> r.hashes[k] == fields
    ensures forall k' :: k' != k ==> (k' in r.hashes <==> k' in s.hashes)
    ensures forall k' :: k' != k && k' in s.hashes ==> r.hashes[k'] == s.hashes[k']
    ensures r.zsets == s.zsets && r.strings == s.strings && r.cache == s.cache
  {
    var prior := if k in s.hashes then s.hashes[k] else map[];
    s.(hashes := s.hashes[k := prior + fields])
  }

  /** `del` of a set of hash keys. */
  function HDelAll(s: Store, ks: set<Key>): (r: Store)
    ensures forall k :: k in r.hashes <==> k in s.hashes && k !in ks
    ensures forall k :: k in r.hashes ==> r.hashes[k] == s.hashes[k]
    ensures r.zsets == s.zsets && r.strings == s.strings && r.cache == s.cache
  {
    s.(hashes := s.hashes - ks)
  }

  /** Removes a thing's cached snapshot. */
  function Uncache(s: Store, thing: string): (r: Store)
    ensures thing !in r.cache
    ensures forall t :: t != thing ==> (t in r.cache <==> t in s.cache)
    ensures forall t :: t != thing && t in s.cache ==> r.cache[t] == s.cache[t]
    ensures r.zsets == s.zsets && r.hashes == s.hashes && r.strings == s.strings
  {
    s.(cache := s.cache - {thing})
  }

  /** Two stores that read the same through every primitive (empty and absent sets agree). */
  ghost predicate SameContents(a: Store, b: Store) {
    && (forall k :: ZGet(a, k) == ZGet(b, k))
    && a.hashes == b.hashes && a.strings == b.strings && a.cache == b.cache
  }

  /** `order` lists the members of a sorted set, each exactly once, as a range read returns them. */
  predicate Enumerates(order: seq<string>, members: set<string>) {
    && (forall i :: 0 <= i < |order| ==> order[i] in members)
    && (forall m :: m in members ==> m in order)
    && (forall i, j :: 0 <= i < j < |order| ==> order[i] != order[j])
  }

  /** A listing without repeats has as many entries as the set has members. */
  lemma EnumerationCount(order: seq<string>, members: set<string>)
    requires Enumerates(order, members)
    ensures |order| == |members|
  {
    assert (set m | m in order) == members;
    DistinctCard(order);
  }

  lemma {:induction false} DistinctCard(b: seq<string>)
    requires forall i, j :: 0 <= i < j < |b| ==> b[i] != b[j]
    ensures |set u | u in b| == |b|
  {
    if |b| > 0 {
      var rest := b[..|b| - 1];
      DistinctCard(rest);
      assert (set u | u in b) == (set u | u in rest) + {b[|b| - 1]};
      assert b[|b| - 1] !in rest;
    }
  }
}
