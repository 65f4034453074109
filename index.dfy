/**
 * One display index: the std::map<std::string, uint32_t> from sort key to
 * UID that Ui keeps per folder and sort/filter mode, as the sorted list of
 * its entries, and the loops of Ui::UpdateDisplayUids that fill and patch it.
 */
module DisplayIndex {
  import opened ByteStrings
  import opened MailTypes
  import opened DisplayKeys

  datatype Entry = Entry(key: Bytes, uid: Uid)

  type Index = seq<Entry>

  /** Every entry of t has a key above k. */
  predicate Above(k: Bytes, t: Index)
  {
    forall e | e in t :: Less(k, e.key)
  }

  /** Strictly ascending keys: the iteration order of a std::map. */
  predicate Sorted(idx: Index)
  {
    |idx| == 0 || (Above(idx[0].key, idx[1..]) && Sorted(idx[1..]))
  }

  /** The map an index stands for. */
  function MapOf(idx: Index): map<Bytes, Uid>
  {
    if |idx| == 0 then map[] else MapOf(idx[1..])[idx[0].key := idx[0].uid]
  }

  lemma TailMembers(t: Index)
    requires |t| > 0
    ensures t == [t[0]] + t[1..]
    ensures forall e :: e in t <==> e == t[0] || e in t[1..]
  {
    assert t == [t[0]] + t[1..];
  }

  lemma MapOfEmpty(t: Index)
    ensures MapOf(t) == map[] <==> |t| == 0
  {
    if |t| > 0 {
      assert t[0].key in MapOf(t);
    }
  }

  /** A key below every entry is not in the map. */
  lemma {:induction false} AboveNotIn(k: Bytes, t: Index)
    requires Above(k, t)
    ensures k !in MapOf(t)
  {
    if |t| > 0 {
      TailMembers(t);
      LessIrreflexive(k);
      AboveNotIn(k, t[1..]);
    }
  }

  lemma AboveBelow(a: Bytes, k: Bytes, t: Index)
    requires Less(a, k) && Above(k, t)
    ensures Above(a, t)
  {
    forall e | e in t
      ensures Less(a, e.key)
    {
      LessTransitive(a, k, e.key);
    }
  }

  /** Every entry of a sorted index is what the map holds under its key. */
  lemma {:induction false} EntryInMap(t: Index, e: Entry)
    requires Sorted(t) && e in t
    ensures e.key in MapOf(t) && MapOf(t)[e.key] == e.uid
  {
    TailMembers(t);
    if e != t[0] {
      EntryInMap(t[1..], e);
      LessIrreflexive(e.key);
    }
  }

  /** Every key of the map comes from an entry of the index. */
  lemma {:induction false} KeyWitness(t: Index, k: Bytes)
    requires k in MapOf(t)
    ensures Entry(k, MapOf(t)[k]) in t
  {
    TailMembers(t);
    if k != t[0].key {
      KeyWitness(t[1..], k);
    }
  }

  /** std::map::insert: add the entry unless the key is already present. */
  function Insert(idx: Index, k: Bytes, u: Uid): Index
  {
    if |idx| == 0 then [Entry(k, u)]
    else if idx[0].key == k then idx
    else if Less(k, idx[0].key) then [Entry(k, u)] + idx
    else [idx[0]] + Insert(idx[1..], k, u)
  }

  /** Inserting keeps the keys sorted and never replaces an entry. */
  lemma {:induction false} InsertSpec(idx: Index, k: Bytes, u: Uid)
    requires Sorted(idx)
    ensures Sorted(Insert(idx, k, u))
    ensures MapOf(Insert(idx, k, u)) == if k in MapOf(idx) then MapOf(idx) else MapOf(idx)[k := u]
    ensures forall e :: e in Insert(idx, k, u) ==> e in idx || e == Entry(k, u)
  {
    if |idx| == 0 {
      assert Insert(idx, k, u)[1..] == [];
    } else if idx[0].key == k {
    } else if Less(k, idx[0].key) {
      InsertFront(idx, k, u);
    } else {
      var h, t := idx[0], Insert(idx[1..], k, u);
      LessTotal(k, h.key);
      InsertSpec(idx[1..], k, u);
      assert Insert(idx, k, u) == [h] + t;
      TailMembers(idx);
      InsertLaterSorted(h, idx[1..], t, k, u);
      LessIrreflexive(k);
      InsertLaterMap(h, MapOf(idx[1..]), MapOf(t), k, u);
    }
  }

  lemma InsertFront(idx: Index, k: Bytes, u: Uid)
    requires Sorted(idx) && |idx| > 0 && Less(k, idx[0].key)
    ensures Sorted([Entry(k, u)] + idx)
    ensures k !in MapOf(idx)
    ensures MapOf([Entry(k, u)] + idx) == MapOf(idx)[k := u]
  {
    var r := [Entry(k, u)] + idx;
    TailMembers(idx);
    AboveBelow(k, idx[0].key, idx[1..]);
    assert Above(k, idx);
    assert r[1..] == idx;
    AboveNotIn(k, idx);
  }

  lemma InsertLaterSorted(h: Entry, rest: Index, t: Index, k: Bytes, u: Uid)
    requires Above(h.key, rest) && Less(h.key, k) && Sorted(t)
    requires forall e :: e in t ==> e in rest || e == Entry(k, u)
    ensures Sorted([h] + t)
    ensures forall e :: e in [h] + t ==> e == h || e in rest || e == Entry(k, u)
  {
    assert ([h] + t)[1..] == t;
  }

  lemma InsertLaterMap(h: Entry, m: map<Bytes, Uid>, mt: map<Bytes, Uid>, k: Bytes, u: Uid)
    requires k != h.key
    requires mt == if k in m then m else m[k := u]
    ensures var mi := m[h.key := h.uid];
      mt[h.key := h.uid] == if k in mi then mi else mi[k := u]
  {
  }

  /** An entry in front of a sorted list of entries above it. */
  lemma ConsSorted(h: Entry, rest: Index, t: Index)
    requires Above(h.key, rest) && Sorted(t)
    requires forall e :: e in t ==> e in rest
    ensures Sorted([h] + t)
    ensures MapOf([h] + t) == MapOf(t)[h.key := h.uid]
    ensures forall e :: e in [h] + t <==> e == h || e in t
  {
    assert ([h] + t)[1..] == t;
  }

  /** Drop the entries whose key is in ks (the by-key erase of std::map). */
  function EraseKeys(idx: Index, ks: set<Bytes>): Index
  {
    if |idx| == 0 then []
    else (if idx[0].key in ks then [] else [idx[0]]) + EraseKeys(idx[1..], ks)
  }

  /** Drop the entries that list a UID in us. */
  function EraseUids(idx: Index, us: set<Uid>): Index
  {
    if |idx| == 0 then []
    else (if idx[0].uid in us then [] else [idx[0]]) + EraseUids(idx[1..], us)
  }

  /** The map with the entries whose value is in us left out. */
  function DropValues(m: map<Bytes, Uid>, us: set<Uid>): map<Bytes, Uid>
  {
    map k | k in m && m[k] !in us :: m[k]
  }

  lemma {:induction false} EraseKeysMembers(idx: Index, ks: set<Bytes>)
    ensures forall e :: e in EraseKeys(idx, ks) <==> e in idx && e.key !in ks
  {
    if |idx| > 0 {
      TailMembers(idx);
      EraseKeysMembers(idx[1..], ks);
    }
  }

  lemma {:induction false} EraseUidsMembers(idx: Index, us: set<Uid>)
    ensures forall e :: e in EraseUids(idx, us) <==> e in idx && e.uid !in us
  {
    if |idx| > 0 {
      TailMembers(idx);
      EraseUidsMembers(idx[1..], us);
    }
  }

  lemma {:induction false} EraseKeysSorted(idx: Index, ks: set<Bytes>)
    requires Sorted(idx)
    ensures Sorted(EraseKeys(idx, ks))
  {
    if |idx| > 0 {
      var h, t := idx[0], EraseKeys(idx[1..], ks);
      EraseKeysSorted(idx[1..], ks);
      EraseKeysMembers(idx[1..], ks);
      if h.key in ks {
        assert EraseKeys(idx, ks) == t;
      } else {
        assert EraseKeys(idx, ks) == [h] + t;
        ConsSorted(h, idx[1..], t);
      }
    }
  }

  lemma {:induction false} EraseUidsSorted(idx: Index, us: set<Uid>)
    requires Sorted(idx)
    ensures Sorted(EraseUids(idx, us))
  {
    if |idx| > 0 {
      var h, t := idx[0], EraseUids(idx[1..], us);
      EraseUidsSorted(idx[1..], us);
      EraseUidsMembers(idx[1..], us);
      if h.uid in us {
        assert EraseUids(idx, us) == t;
      } else {
        assert EraseUids(idx, us) == [h] + t;
        ConsSorted(h, idx[1..], t);
      }
    }
  }

  lemma MinusStep(m: map<Bytes, Uid>, k: Bytes, v: Uid, ks: set<Bytes>)
    requires k !in m
    ensures m[k := v] - ks == if k in ks then m - ks else (m - ks)[k := v]
  {
  }

  lemma DropStep(m: map<Bytes, Uid>, k: Bytes, v: Uid, us: set<Uid>)
    requires k !in m
    ensures DropValues(m[k := v], us) == if v in us then DropValues(m, us) else DropValues(m, us)[k := v]
  {
  }

  lemma {:induction false} EraseKeysMap(idx: Index, ks: set<Bytes>)
    requires Sorted(idx)
    ensures MapOf(EraseKeys(idx, ks)) == MapOf(idx) - ks
  {
    if |idx| > 0 {
      var h, t := idx[0], EraseKeys(idx[1..], ks);
      EraseKeysMap(idx[1..], ks);
      AboveNotIn(h.key, idx[1..]);
      MinusStep(MapOf(idx[1..]), h.key, h.uid, ks);
      if h.key in ks {
        assert EraseKeys(idx, ks) == t;
      } else {
        assert EraseKeys(idx, ks) == [h] + t;
        assert ([h] + t)[1..] == t;
      }
    }
  }

  lemma {:induction false} EraseUidsMap(idx: Index, us: set<Uid>)
    requires Sorted(idx)
    ensures MapOf(EraseUids(idx, us)) == DropValues(MapOf(idx), us)
  {
    if |idx| > 0 {
      var h, t := idx[0], EraseUids(idx[1..], us);
      EraseUidsMap(idx[1..], us);
      AboveNotIn(h.key, idx[1..]);
      DropStep(MapOf(idx[1..]), h.key, h.uid, us);
      if h.uid in us {
        assert EraseUids(idx, us) == t;
      } else {
        assert EraseUids(idx, us) == [h] + t;
        assert ([h] + t)[1..] == t;
      }
    }
  }

  /** Erasing by key keeps the index sorted and leaves exactly the entries under other keys. */
  lemma EraseKeysSpec(idx: Index, ks: set<Bytes>)
    requires Sorted(idx)
    ensures Sorted(EraseKeys(idx, ks))
    ensures MapOf(EraseKeys(idx, ks)) == MapOf(idx) - ks
    ensures forall e :: e in EraseKeys(idx, ks) <==> e in idx && e.key !in ks
  {
    EraseKeysMembers(idx, ks);
    EraseKeysSorted(idx, ks);
    EraseKeysMap(idx, ks);
  }

  /** Erasing by UID keeps the index sorted and leaves exactly the entries listing other UIDs. */
  lemma EraseUidsSpec(idx: Index, us: set<Uid>)
    requires Sorted(idx)
    ensures Sorted(EraseUids(idx, us))
    ensures MapOf(EraseUids(idx, us)) == DropValues(MapOf(idx), us)
    ensures forall e :: e in EraseUids(idx, us) <==> e in idx && e.uid !in us
  {
    EraseUidsMembers(idx, us);
    EraseUidsSorted(idx, us);
    EraseUidsMap(idx, us);
  }

  lemma {:induction false} EraseKeysTwice(idx: Index, ks: set<Bytes>, more: set<Bytes>)
    ensures EraseKeys(EraseKeys(idx, ks), more) == EraseKeys(idx, ks + more)
  {
    if |idx| > 0 {
      EraseKeysTwice(idx[1..], ks, more);
      if idx[0].key in ks {
        assert EraseKeys(idx, ks) == EraseKeys(idx[1..], ks);
      } else {
        assert EraseKeys(idx, ks)[0] == idx[0];
        assert EraseKeys(idx, ks)[1..] == EraseKeys(idx[1..], ks);
      }
    }
  }

  lemma {:induction false} EraseUidsTwice(idx: Index, us: set<Uid>, more: set<Uid>)
    ensures EraseUids(EraseUids(idx, us), more) == EraseUids(idx, us + more)
  {
    if |idx| > 0 {
      EraseUidsTwice(idx[1..], us, more);
      if idx[0].uid in us {
        assert EraseUids(idx, us) == EraseUids(idx[1..], us);
      } else {
        assert EraseUids(idx, us)[0] == idx[0];
        assert EraseUids(idx, us)[1..] == EraseUids(idx[1..], us);
      }
    }
  }

  lemma {:induction false} EraseNothing(idx: Index)
    ensures EraseKeys(idx, {}) == idx && EraseUids(idx, {}) == idx
  {
    if |idx| > 0 {
      EraseNothing(idx[1..]);
      TailMembers(idx);
    }
  }

  /**
   * A key function as the index uses it: two UIDs never share a non-empty
   * key. DisplayKey in one state and one mode is such a function.
   */
  ghost predicate Injective(keyOf: Uid -> Bytes)
  {
    forall u1, u2 :: keyOf(u1) == keyOf(u2) != [] ==> u1 == u2
  }

  /** The key function of one mode in one header, flag and filter state. */
  function KeyFn(fns: TextFns, env: KeyEnv, mode: SortFilter): Uid -> Bytes
  {
    (u: Uid) => DisplayKey(fns, env, u, mode)
  }

  lemma KeyFnInjective(fns: TextFns, env: KeyEnv, mode: SortFilter)
    requires KeyFnsAssumed(fns)
    ensures Injective(KeyFn(fns, env, mode))
  {
    KeyInjective(fns, env, mode);
  }

  /** Whether a UID gets an entry: UID 0 and empty keys are skipped. */
  predicate Keyed(keyOf: Uid -> Bytes, u: Uid)
  {
    u != 0 && keyOf(u) != []
  }

  /** The entries a set of UIDs contributes. */
  function KeyedUids(keyOf: Uid -> Bytes, us: set<Uid>): map<Bytes, Uid>
    requires Injective(keyOf)
  {
    map u | u in us && Keyed(keyOf, u) :: keyOf(u) := u
  }

  /** Each UID of the set that gets an entry is filed under its own key, and nothing else is there. */
  lemma KeyedUidsContents(keyOf: Uid -> Bytes, us: set<Uid>)
    requires Injective(keyOf)
    ensures forall k | k in KeyedUids(keyOf, us) ::
      var u := KeyedUids(keyOf, us)[k];
      u in us && Keyed(keyOf, u) && keyOf(u) == k
    ensures forall u | u in us && Keyed(keyOf, u) ::
      keyOf(u) in KeyedUids(keyOf, us) &&
      KeyedUids(keyOf, us)[keyOf(u)] == u
  {
  }

  /** Adding one more UID adds at most its own entry, under a key not yet taken. */
  lemma KeyedUidsAdd(keyOf: Uid -> Bytes, us: set<Uid>, u: Uid)
    requires Injective(keyOf) && u !in us
    ensures !Keyed(keyOf, u) ==> KeyedUids(keyOf, us + {u}) == KeyedUids(keyOf, us)
    ensures Keyed(keyOf, u) ==>
      keyOf(u) !in KeyedUids(keyOf, us) &&
      KeyedUids(keyOf, us + {u}) == KeyedUids(keyOf, us)[keyOf(u) := u]
  {
    KeyedUidsContents(keyOf, us);
  }

  /** The keys a set of removed UIDs is looked up under. */
  function RemovalKeys(keyOf: Uid -> Bytes, us: set<Uid>): set<Bytes>
  {
    set u | u in us && Keyed(keyOf, u) :: keyOf(u)
  }

  /**
   * The insert loop of Ui::UpdateDisplayUids as a function: the UIDs are
   * taken in ascending order, and each UID other than 0 whose key is
   * non-empty is inserted under its key unless the key is taken.
   */
  function InsertAll(keyOf: Uid -> Bytes, idx: Index, us: set<Uid>): Index
    decreases |us|
  {
    if us == {} then idx
    else
      var u := Min(us);
      InsertAll(keyOf, if Keyed(keyOf, u) then Insert(idx, keyOf(u), u) else idx, us - {u})
  }

  /**
   * Inserting a set of UIDs into a sorted index keeps it sorted and adds
   * exactly the entries the set contributes whose keys are not yet taken.
   */
  lemma {:induction false} InsertAllSpec(keyOf: Uid -> Bytes, idx: Index, us: set<Uid>)
    requires Injective(keyOf) && Sorted(idx)
    ensures Sorted(InsertAll(keyOf, idx, us))
    ensures MapOf(InsertAll(keyOf, idx, us)) == KeyedUids(keyOf, us) + MapOf(idx)
    decreases |us|
  {
    if us != {} {
      var u := Min(us);
      var rest := us - {u};
      var next := if Keyed(keyOf, u) then Insert(idx, keyOf(u), u) else idx;
      assert InsertAll(keyOf, idx, us) == InsertAll(keyOf, next, rest);
      assert rest + {u} == us;
      KeyedUidsAdd(keyOf, rest, u);
      if Keyed(keyOf, u) {
        InsertSpec(idx, keyOf(u), u);
      }
      InsertAllSpec(keyOf, next, rest);
      if Keyed(keyOf, u) {
        InsertUnion(KeyedUids(keyOf, rest), MapOf(idx), keyOf(u), u);
      }
    }
  }

  /** Adding an entry under a fresh key to the left operand of a union is inserting it unless the right one has the key. */
  lemma InsertUnion(a: map<Bytes, Uid>, m: map<Bytes, Uid>, k: Bytes, u: Uid)
    requires k !in a
    ensures a[k := u] + m == a + (if k in m then m else m[k := u])
  {
  }

  /**
   * The insert loop of Ui::UpdateDisplayUids (used both to rebuild the
   * index from scratch and to add UIDs): insert every UID other than 0
   * whose key is non-empty, in ascending UID order. Entries already present
   * stay as they are.
   */
  method InsertKeyed(keyOf: Uid -> Bytes, idx: Index, us: set<Uid>)
    returns (r: Index)
    ensures r == InsertAll(keyOf, idx, us)
  {
    r := idx;
    var rest := us;
    while rest != {}
      invariant InsertAll(keyOf, r, rest) == InsertAll(keyOf, idx, us)
      decreases |rest|
    {
      var uid := Min(rest);
      rest := rest - {uid};
      if uid == 0 {
        continue;
      }
      var key := keyOf(uid);
      if key == [] {
        continue;
      }
      r := Insert(r, key, uid);
    }
  }

  /**
   * The erase loop of Ui::UpdateDisplayUids as written: each removed UID's
   * key is computed again from the current header and flag state and the
   * entry under that key, if any, is erased.
   */
  method EraseByRecomputedKey(keyOf: Uid -> Bytes, idx: Index, removed: set<Uid>)
    returns (r: Index)
    requires Sorted(idx)
    ensures Sorted(r)
    ensures r == EraseKeys(idx, RemovalKeys(keyOf, removed))
    ensures MapOf(r) == MapOf(idx) - RemovalKeys(keyOf, removed)
  {
    r := idx;
    var rest := removed;
    ghost var done: set<Uid> := {};
    EraseNothing(idx);
    assert RemovalKeys(keyOf, done) == {};
    while rest != {}
      invariant done + rest == removed && done !! rest
      invariant r == EraseKeys(idx, RemovalKeys(keyOf, done))
      decreases |rest|
    {
      var uid := Min(rest);
      rest := rest - {uid};
      ghost var before := RemovalKeys(keyOf, done);
      done := done + {uid};
      if uid == 0 {
        assert RemovalKeys(keyOf, done) == before;
        continue;
      }
      var key := keyOf(uid);
      if key == [] {
        assert RemovalKeys(keyOf, done) == before;
        continue;
      }
      assert RemovalKeys(keyOf, done) == before + {key};
      EraseKeysTwice(idx, before, {key});
      r := EraseKeys(r, {key});
    }
    EraseKeysSpec(idx, RemovalKeys(keyOf, removed));
  }

  /**
   * The corrected erase: drop every entry that lists a removed UID,
   * whatever key it was filed under.
   */
  method EraseRemovedUids(idx: Index, removed: set<Uid>) returns (r: Index)
    requires Sorted(idx)
    ensures r == EraseUids(idx, removed)
    ensures Sorted(r)
    ensures forall e :: e in r <==> e in idx && e.uid !in removed
    ensures MapOf(r) == DropValues(MapOf(idx), removed)
  {
    r := idx;
    var rest := removed;
    ghost var done: set<Uid> := {};
    EraseNothing(idx);
    while rest != {}
      invariant done + rest == removed && done !! rest
      invariant r == EraseUids(idx, done)
      decreases |rest|
    {
      var uid := Min(rest);
      rest := rest - {uid};
      EraseUidsTwice(idx, done, {uid});
      done := done + {uid};
      r := EraseUids(r, {uid});
    }
    EraseUidsSpec(idx, removed);
  }

  /** Two sorted indexes that stand for the same map are the same list. */
  lemma {:induction false} SortedMapUnique(a: Index, b: Index)
    requires Sorted(a) && Sorted(b) && MapOf(a) == MapOf(b)
    ensures a == b
  {
    MapOfEmpty(a);
    MapOfEmpty(b);
    if |a| == 0 || |b| == 0 {
    } else {
      var ha, hb := a[0], b[0];
      TailMembers(a);
      TailMembers(b);
      assert ha.key == hb.key by {
        assert ha.key in MapOf(b);
        KeyWitness(b, ha.key);
        assert hb.key in MapOf(a);
        KeyWitness(a, hb.key);
        LessIrreflexive(ha.key);
        LessAsymmetric(ha.key, hb.key);
      }
      assert ha == hb;
      AboveNotIn(ha.key, a[1..]);
      AboveNotIn(hb.key, b[1..]);
      assert MapOf(a[1..]) == MapOf(a) - {ha.key};
      assert MapOf(b[1..]) == MapOf(b) - {hb.key};
      SortedMapUnique(a[1..], b[1..]);
    }
  }

  /** GetDisplayUids read from the back: the UIDs newest (largest key) first. */
  function NewestFirst(idx: Index): (r: seq<Uid>)
    ensures |r| == |idx|
  {
    if |idx| == 0 then [] else NewestFirst(idx[1..]) + [idx[0].uid]
  }

  predicate NoDuplicates(s: seq<Uid>)
  {
    forall i, j :: 0 <= i < j < |s| ==> s[i] != s[j]
  }

  /** A map no two of whose keys hold the same UID. */
  predicate ValuesDistinct(m: map<Bytes, Uid>)
  {
    forall k1, k2 | k1 in m && k2 in m && m[k1] == m[k2] :: k1 == k2
  }

  /** Read newest first, a sorted index lists the map's UIDs, each once when the map holds it under one key. */
  lemma {:induction false} NewestFirstListing(idx: Index)
    requires Sorted(idx)
    ensures forall u :: u in NewestFirst(idx) <==> u in MapOf(idx).Values
    ensures ValuesDistinct(MapOf(idx)) ==> NoDuplicates(NewestFirst(idx))
  {
    if |idx| > 0 {
      var h := idx[0];
      var m := MapOf(idx[1..]);
      TailMembers(idx);
      NewestFirstListing(idx[1..]);
      AboveNotIn(h.key, idx[1..]);
      assert MapOf(idx).Values == m.Values + {h.uid} by {
        forall u | u in MapOf(idx).Values
          ensures u in m.Values + {h.uid}
        {
          var k :| k in MapOf(idx) && MapOf(idx)[k] == u;
          if k != h.key {
            assert m[k] == u;
          }
        }
        forall u | u in m.Values
          ensures u in MapOf(idx).Values
        {
          var k :| k in m && m[k] == u;
          assert MapOf(idx)[k] == u;
        }
        assert MapOf(idx)[h.key] == h.uid;
      }
      if ValuesDistinct(MapOf(idx)) {
        assert ValuesDistinct(m) by {
          forall k1, k2 | k1 in m && k2 in m && m[k1] == m[k2]
            ensures k1 == k2
          {
            assert MapOf(idx)[k1] == m[k1] && MapOf(idx)[k2] == m[k2];
          }
        }
        assert h.uid !in m.Values by {
          forall k | k in m
            ensures m[k] != h.uid
          {
            assert MapOf(idx)[k] == m[k] && MapOf(idx)[h.key] == h.uid;
          }
        }
      }
    }
  }

  /**
   * An index whose map is exactly the entries a set of UIDs contributes
   * lists, newest first, each UID of the set that is not 0 and has a
   * non-empty key, exactly once, and files each under its own key.
   */
  lemma BuiltIndexListing(keyOf: Uid -> Bytes, us: set<Uid>, idx: Index)
    requires Injective(keyOf) && Sorted(idx)
    requires MapOf(idx) == KeyedUids(keyOf, us)
    ensures forall u :: u in NewestFirst(idx) <==> u in us && Keyed(keyOf, u)
    ensures NoDuplicates(NewestFirst(idx))
    ensures Fresh(keyOf, idx)
  {
    var m := KeyedUids(keyOf, us);
    KeyedUidsContents(keyOf, us);
    NewestFirstListing(idx);
    forall u | u in us && Keyed(keyOf, u)
      ensures u in m.Values
    {
      assert m[keyOf(u)] == u;
    }
    forall e | e in idx
      ensures e.uid != 0 && e.key != [] && e.key == keyOf(e.uid)
    {
      EntryInMap(idx, e);
    }
  }

  /** Every entry is filed under its UID's key in this state, and none lists UID 0. */
  predicate Fresh(keyOf: Uid -> Bytes, idx: Index)
  {
    forall e | e in idx :: e.uid != 0 && e.key != [] && e.key == keyOf(e.uid)
  }

  /** Every entry of an insert is an entry of the index or the inserted one. */
  lemma {:induction false} InsertEntries(idx: Index, k: Bytes, u: Uid)
    ensures forall e | e in Insert(idx, k, u) :: e in idx || e == Entry(k, u)
  {
    if |idx| > 0 && idx[0].key != k && !Less(k, idx[0].key) {
      InsertEntries(idx[1..], k, u);
    }
  }

  /** Inserting UIDs under their own keys keeps every key of the index fresh. */
  lemma {:induction false} InsertAllFresh(keyOf: Uid -> Bytes, idx: Index, us: set<Uid>)
    requires Fresh(keyOf, idx)
    ensures Fresh(keyOf, InsertAll(keyOf, idx, us))
    decreases |us|
  {
    if us != {} {
      var u := Min(us);
      var next := if Keyed(keyOf, u) then Insert(idx, keyOf(u), u) else idx;
      if Keyed(keyOf, u) {
        InsertEntries(idx, keyOf(u), u);
      }
      InsertAllFresh(keyOf, next, us - {u});
    }
  }

  /** While no key has gone stale, erasing by recomputed key erases exactly the removed UIDs. */
  lemma {:induction false} FreshEraseAgrees(keyOf: Uid -> Bytes, idx: Index, removed: set<Uid>)
    requires Injective(keyOf) && Fresh(keyOf, idx)
    ensures EraseKeys(idx, RemovalKeys(keyOf, removed)) == EraseUids(idx, removed)
  {
    if |idx| > 0 {
      var e := idx[0];
      var ks := RemovalKeys(keyOf, removed);
      TailMembers(idx);
      FreshEraseAgrees(keyOf, idx[1..], removed);
      assert e.key in ks <==> e.uid in removed;
    }
  }

  /**
   * The erase by recomputed key misses an entry whose key changed after it
   * was filed. A message filed in SortUnseenOnly while unseen has the empty
   * key once it is marked seen, so removing it leaves it listed; the erase
   * by UID drops it.
   */
  lemma StaleKeySurvivesErase(fns: TextFns, env: KeyEnv, u: Uid)
    requires u != 0 && IsUnseen(env, u)
    ensures var seenEnv := env.(flags := env.flags[u := SetSeenBit(env.flags[u], true)]);
      var idx := [Entry(DisplayKey(fns, env, u, SortUnseenOnly), u)];
      && Sorted(idx)
      && EraseKeys(idx, RemovalKeys(KeyFn(fns, seenEnv, SortUnseenOnly), {u})) == idx
      && NewestFirst(idx) == [u]
      && EraseUids(idx, {u}) == []
  {
    var seenEnv := env.(flags := env.flags[u := SetSeenBit(env.flags[u], true)]);
    assert DisplayKey(fns, seenEnv, u, SortUnseenOnly) == [];
    assert RemovalKeys(KeyFn(fns, seenEnv, SortUnseenOnly), {u}) == {};
    EraseNothing([Entry(DisplayKey(fns, env, u, SortUnseenOnly), u)]);
  }

  /** Every entry of the map lists a UID other than 0 that is in us. */
  predicate Listed(m: map<Bytes, Uid>, us: set<Uid>)
  {
    forall k | k in m :: m[k] != 0 && m[k] in us
  }

  /**
   * Patching an index that lists only UIDs of a folder, by dropping the
   * removed UIDs and adding the entries of the added ones, leaves an index
   * that lists only UIDs of the patched folder, and none that was removed
   * and not added back.
   */
  lemma PatchListed(keyOf: Uid -> Bytes, base: map<Bytes, Uid>, us: set<Uid>, removed: set<Uid>, added: set<Uid>)
    requires Injective(keyOf) && Listed(base, us)
    ensures Listed(KeyedUids(keyOf, added) + DropValues(base, removed), (us - removed) + added)
    ensures forall k | k in KeyedUids(keyOf, added) + DropValues(base, removed) ::
      (KeyedUids(keyOf, added) + DropValues(base, removed))[k] !in removed - added
  {
    KeyedUidsContents(keyOf, added);
  }

  /** A sorted index whose map lists only UIDs of us shows, newest first, only UIDs of us, and never UID 0. */
  lemma ListedShown(idx: Index, us: set<Uid>)
    requires Sorted(idx) && Listed(MapOf(idx), us)
    ensures forall u | u in NewestFirst(idx) :: u != 0 && u in us
  {
    NewestFirstListing(idx);
  }
}
