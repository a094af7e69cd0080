/**
  A JavaScript object used as an insertion-ordered table whose entries carry a
  timestamp, with the "sort newest first and keep the first `cap`" pruning that
  both the service-tier store and the scroll store apply when they write.
*/
module RecencyTable {
  import opened Text

  datatype Item<+V> = Item(key: string, value: V, at: int)

  type Table<+V> = seq<Item<V>>

  predicate HasKey<V>(t: Table<V>, key: string) {
    exists i :: 0 <= i < |t| && t[i].key == key
  }

  predicate DistinctKeys<V>(t: Table<V>) {
    forall i, j :: 0 <= i < j < |t| ==> t[i].key != t[j].key
  }

  function Find<V>(t: Table<V>, key: string): (r: Option<Item<V>>)
    ensures r.Some? ==> r.value in t && r.value.key == key
    ensures r.None? <==> !HasKey(t, key)
  {
    if t == [] then None
    else if t[0].key == key then
      assert HasKey(t, key);
      Some(t[0])
    else
      var r := Find(t[1..], key);
      assert HasKey(t[1..], key) ==> HasKey(t, key) by {
        if HasKey(t[1..], key) {
          var i :| 0 <= i < |t[1..]| && t[1..][i].key == key;
          assert t[i + 1].key == key;
        }
      }
      assert HasKey(t, key) ==> HasKey(t[1..], key) by {
        if HasKey(t, key) {
          var i :| 0 <= i < |t| && t[i].key == key;
          assert t[1..][i - 1].key == key;
        }
      }
      r
  }

  /** `entries[item.key] = item`: overwrites in place, or appends. */
  function Put<V>(t: Table<V>, item: Item<V>): Table<V> {
    if t == [] then [item]
    else if t[0].key == item.key then [item] + t[1..]
    else [t[0]] + Put(t[1..], item)
  }

  /** `delete entries[key]`. */
  function Remove<V>(t: Table<V>, key: string): Table<V> {
    if t == [] then []
    else if t[0].key == key then Remove(t[1..], key)
    else [t[0]] + Remove(t[1..], key)
  }

  /** Stable insertion into a newest-first list: `x` came before everything in `t`. */
  function InsertNewestFirst<V>(x: Item<V>, t: Table<V>): Table<V> {
    if t == [] || x.at >= t[0].at then [x] + t
    else [t[0]] + InsertNewestFirst(x, t[1..])
  }

  /** Stable sort by decreasing timestamp. */
  function NewestFirst<V>(t: Table<V>): Table<V> {
    if t == [] then [] else InsertNewestFirst(t[0], NewestFirst(t[1..]))
  }

  /** What survives a write. */
  function Prune<V>(t: Table<V>, cap: nat): Table<V> {
    var s := NewestFirst(t);
    if |s| <= cap then s else s[..cap]
  }

  ghost predicate SortedNewestFirst<V>(t: Table<V>) {
    forall i, j :: 0 <= i < j < |t| ==> t[i].at >= t[j].at
  }

  // ---------------------------------------------------------------- lookups

  lemma FindUnique<V(!new)>(t: Table<V>, x: Item<V>)
    requires DistinctKeys(t) && x in t
    ensures Find(t, x.key) == Some(x)
  {
  }

  /** Two tables with the same entries answer every lookup alike. */
  lemma SameEntriesSameFind<V(!new)>(t: Table<V>, u: Table<V>, key: string)
    requires DistinctKeys(t) && DistinctKeys(u)
    requires forall x :: x in t && x.key == key ==> x in u
    requires forall x :: x in u && x.key == key ==> x in t
    ensures Find(t, key) == Find(u, key)
  {
  }

  lemma TailDistinct<V(!new)>(t: Table<V>)
    requires DistinctKeys(t) && t != []
    ensures DistinctKeys(t[1..])
    ensures forall x :: x in t[1..] ==> x.key != t[0].key
  {
  }

  lemma ConsDistinct<V(!new)>(x: Item<V>, t: Table<V>)
    requires DistinctKeys(t)
    requires forall y :: y in t ==> y.key != x.key
    ensures DistinctKeys([x] + t)
  {
  }

  /** `Put` holds exactly the new item and the old items under other keys. */
  lemma {:induction false} PutSpec<V(!new)>(t: Table<V>, item: Item<V>)
    requires DistinctKeys(t)
    ensures DistinctKeys(Put(t, item))
    ensures forall x :: x in Put(t, item) <==> x == item || (x in t && x.key != item.key)
    ensures |Put(t, item)| == if HasKey(t, item.key) then |t| else |t| + 1
  {
    if t != [] {
      TailDistinct(t);
      assert t == [t[0]] + t[1..];
      if t[0].key == item.key {
        ConsDistinct(item, t[1..]);
      } else {
        PutSpec(t[1..], item);
        var rest := Put(t[1..], item);
        forall y | y in rest ensures y.key != t[0].key {
          assert y == item || y in t[1..];
        }
        ConsDistinct(t[0], rest);
        assert Find(t, item.key) == Find(t[1..], item.key);
      }
    }
  }

  lemma {:induction false} PutAppends<V(!new)>(t: Table<V>, item: Item<V>)
    requires forall x :: x in t ==> x.key != item.key
    ensures Put(t, item) == t + [item]
  {
    if t != [] {
      assert t[0] in t;
      PutAppends(t[1..], item);
      assert t + [item] == [t[0]] + (t[1..] + [item]);
    }
  }

  lemma {:induction false} RemoveSpec<V(!new)>(t: Table<V>, key: string)
    requires DistinctKeys(t)
    ensures DistinctKeys(Remove(t, key))
    ensures forall x :: x in Remove(t, key) <==> x in t && x.key != key
    ensures |Remove(t, key)| <= |t|
  {
    if t != [] {
      TailDistinct(t);
      assert t == [t[0]] + t[1..];
      RemoveSpec(t[1..], key);
      if t[0].key != key {
        var rest := Remove(t[1..], key);
        assert forall y :: y in rest ==> y.key != t[0].key;
        ConsDistinct(t[0], rest);
      }
    }
  }

  // ---------------------------------------------------------------- pruning

  lemma {:induction false} InsertSpec<V(!new)>(x: Item<V>, t: Table<V>)
    requires SortedNewestFirst(t) && DistinctKeys(t)
    requires forall y :: y in t ==> y.key != x.key
    ensures SortedNewestFirst(InsertNewestFirst(x, t)) && DistinctKeys(InsertNewestFirst(x, t))
    ensures forall y :: y in InsertNewestFirst(x, t) <==> y == x || y in t
    ensures |InsertNewestFirst(x, t)| == |t| + 1
  {
    if t == [] || x.at >= t[0].at {
      ConsDistinct(x, t);
    } else {
      TailDistinct(t);
      assert t == [t[0]] + t[1..];
      InsertSpec(x, t[1..]);
      var rest := InsertNewestFirst(x, t[1..]);
      ConsDistinct(t[0], rest);
      forall j | 0 <= j < |rest|
        ensures rest[j].at <= t[0].at
      {
        assert rest[j] in rest;
      }
    }
  }

  lemma {:induction false} NewestFirstSpec<V(!new)>(t: Table<V>)
    requires DistinctKeys(t)
    ensures SortedNewestFirst(NewestFirst(t)) && DistinctKeys(NewestFirst(t))
    ensures forall y :: y in NewestFirst(t) <==> y in t
    ensures |NewestFirst(t)| == |t|
  {
    if t != [] {
      TailDistinct(t);
      NewestFirstSpec(t[1..]);
      InsertSpec(t[0], NewestFirst(t[1..]));
      assert t == [t[0]] + t[1..];
    }
  }

  lemma PrefixSpec<V(!new)>(s: Table<V>, cap: nat)
    requires DistinctKeys(s) && SortedNewestFirst(s) && cap <= |s|
    ensures DistinctKeys(s[..cap]) && SortedNewestFirst(s[..cap])
    ensures forall x :: x in s[..cap] ==> x in s
    ensures forall x, y :: x in s && x !in s[..cap] && y in s[..cap] ==> x.at <= y.at
  {
  }

  /**
    Pruning keeps at most `cap` of the entries, all of them when they fit, and
    never drops an entry that is newer than one it keeps.
  */
  lemma PruneSpec<V(!new)>(t: Table<V>, cap: nat)
    requires DistinctKeys(t)
    ensures DistinctKeys(Prune(t, cap)) && SortedNewestFirst(Prune(t, cap))
    ensures |Prune(t, cap)| == if |t| <= cap then |t| else cap
    ensures forall x :: x in Prune(t, cap) ==> x in t
    ensures |t| <= cap ==> forall x :: x in t ==> x in Prune(t, cap)
    ensures forall x, y :: x in t && x !in Prune(t, cap) && y in Prune(t, cap) ==> x.at <= y.at
  {
    NewestFirstSpec(t);
    if |t| > cap {
      PrefixSpec(NewestFirst(t), cap);
    }
  }

  /** One entry too many costs exactly one entry, and it is an oldest one. */
  lemma PruneVictim<V(!new)>(t: Table<V>, cap: nat) returns (victim: Item<V>)
    requires DistinctKeys(t) && |t| == cap + 1
    ensures victim in t && victim !in Prune(t, cap)
    ensures forall x :: x in t && x != victim ==> x in Prune(t, cap) && x.at >= victim.at
  {
    NewestFirstSpec(t);
    var s := NewestFirst(t);
    victim := s[cap];
    assert victim in s;
    forall x | x in t && x != victim
      ensures x in Prune(t, cap) && x.at >= victim.at
    {
      var i :| 0 <= i < |s| && s[i] == x;
      assert s[..cap][i] == x;
    }
  }

  /** Pruning answers lookups as before for every key that it does not evict. */
  lemma PruneKeepsFind<V(!new)>(t: Table<V>, cap: nat, key: string)
    requires DistinctKeys(t)
    requires |t| <= cap || forall x :: x in t && x.key == key ==> x in Prune(t, cap)
    ensures Find(Prune(t, cap), key) == Find(t, key)
  {
    PruneSpec(t, cap);
    SameEntriesSameFind(Prune(t, cap), t, key);
  }

  lemma PruneFew<V(!new)>(t: Table<V>, cap: nat)
    requires |t| <= 1 <= cap
    ensures Prune(t, cap) == t
  {
    PruneSpec(t, cap);
    if t != [] {
      assert Prune(t, cap)[0] in Prune(t, cap);
    }
  }
}
