/**
  Saved scroll positions: an in-memory table in front of local storage, capped
  at the newest entries on every write.
*/
module ThreadScrollCache {
  import opened Text
  import opened SessionKeys
  import opened RecencyTable

  const MAX_ENTRIES: nat := 120

  /** A JavaScript number read back from JSON. */
  datatype Num = Finite(r: real) | NotFinite

  datatype RawPosition = RawPosition(top: Num, scrollHeight: Num, clientHeight: Num) | NotAnObject

  /** The stored text: the current shape, an older one without the wrapper, or nothing usable. */
  datatype ScrollText = Wrapped(entries: Table<RawPosition>) | Bare(entries: Table<RawPosition>) | Unreadable

  datatype Position = Position(top: real, scrollHeight: real, clientHeight: real)

  type Positions = Table<Position>

  /** `memory` is None until the first read of the page's lifetime. */
  datatype Cache = Cache(memory: Option<Positions>, storage: ScrollText)

  function FiniteNumber(n: Num): real {
    if n.Finite? then n.r else 0.0
  }

  function NonNegative(x: real): real {
    if x >= 0.0 then x else 0.0
  }

  function ParsePosition(raw: RawPosition): Position
    requires raw.RawPosition?
  {
    Position(FiniteNumber(raw.top), NonNegative(FiniteNumber(raw.scrollHeight)), NonNegative(FiniteNumber(raw.clientHeight)))
  }

  function ParseEntries(raw: Table<RawPosition>): Positions {
    if raw == [] then []
    else
      var last := raw[|raw| - 1];
      var rest := ParseEntries(raw[..|raw| - 1]);
      if ValidKey(last.key) != "" && last.value.RawPosition? then
        Put(rest, Item(ValidKey(last.key), ParsePosition(last.value), if last.at >= 0 then last.at else 0))
      else rest
  }

  /** What a page that has just loaded would read. */
  function Reload(storage: ScrollText): Positions {
    if storage.Unreadable? then [] else ParseEntries(storage.entries)
  }

  /** `readThreadScrollEntries`: the entries, and the cache with its memory filled. */
  function Entries(cache: Cache): Positions {
    if cache.memory.Some? then cache.memory.value else Reload(cache.storage)
  }

  function Loaded(cache: Cache): Cache {
    cache.(memory := Some(Entries(cache)))
  }

  function KeepValid(t: Positions): Positions {
    if t == [] then []
    else if ValidKey(t[0].key) == "" then KeepValid(t[1..])
    else [t[0].(key := ValidKey(t[0].key))] + KeepValid(t[1..])
  }

  function RawTexts(t: Positions): Table<RawPosition> {
    seq(|t|, i requires 0 <= i < |t| => RawText(t[i]))
  }

  function RawText(x: Item<Position>): Item<RawPosition> {
    Item(x.key, RawPosition(Finite(x.value.top), Finite(x.value.scrollHeight), Finite(x.value.clientHeight)), x.at)
  }

  /** `writeThreadScrollEntries`. */
  function Written(entries: Positions): Cache {
    var pruned := KeepValid(Prune(entries, MAX_ENTRIES));
    Cache(Some(pruned), Wrapped(RawTexts(pruned)))
  }

  function Saved(cache: Cache, item: Item<Position>): Cache {
    Written(Put(Entries(cache), item))
  }

  function SavedAll(cache: Cache, items: seq<Item<Position>>): Cache {
    if items == [] then cache else Saved(SavedAll(cache, items[..|items| - 1]), items[|items| - 1])
  }

  // -------------------------------------------------------------- coherence

  ghost predicate NormalItem(x: Item<Position>) {
    Valid(x.key) && x.at >= 0 && x.value.scrollHeight >= 0.0 && x.value.clientHeight >= 0.0
  }

  ghost predicate Normal(t: Positions) {
    DistinctKeys(t) && forall x :: x in t ==> NormalItem(x)
  }

  /** Memory, once filled, is what a reload would read, in the same order. */
  ghost predicate Coherent(cache: Cache) {
    Normal(Entries(cache)) && Entries(cache) == Reload(cache.storage)
  }

  lemma {:induction false} ParseNormal(raw: Table<RawPosition>)
    ensures Normal(ParseEntries(raw))
  {
    if raw != [] {
      var last := raw[|raw| - 1];
      ParseNormal(raw[..|raw| - 1]);
      if ValidKey(last.key) != "" && last.value.RawPosition? {
        ValidKeyStable(last.key);
        PutSpec(ParseEntries(raw[..|raw| - 1]),
                Item(ValidKey(last.key), ParsePosition(last.value), if last.at >= 0 then last.at else 0));
      }
    }
  }

  lemma FreshPageCoherent(storage: ScrollText)
    ensures Coherent(Cache(None, storage))
  {
    if !storage.Unreadable? {
      ParseNormal(storage.entries);
    }
  }

  lemma {:induction false} KeepValidIdle(t: Positions)
    requires forall x :: x in t ==> NormalItem(x)
    ensures KeepValid(t) == t
  {
    if t != [] {
      assert t[0] in t;
      KeepValidIdle(t[1..]);
      assert t == [t[0]] + t[1..];
    }
  }

  lemma InitNormal(init: Positions, last: Item<Position>)
    requires Normal(init + [last])
    ensures Normal(init) && NormalItem(last)
    ensures forall x :: x in init ==> x.key != last.key
  {
    var all := init + [last];
    assert last in all && all[|init|] == last && forall x :: x in init ==> x in all;
    assert forall i :: 0 <= i < |init| ==> all[i] == init[i];
  }

  /** A stored text is parsed to the item that it was made from. */
  lemma ParseRawText(raw: Table<RawPosition>, item: Item<Position>)
    requires NormalItem(item)
    ensures ParseEntries(raw + [RawText(item)]) == Put(ParseEntries(raw), item)
  {
  }

  lemma {:induction false} ParseRawTexts(t: Positions)
    requires Normal(t)
    ensures ParseEntries(RawTexts(t)) == t
  {
    if t != [] {
      var init, last := t[..|t| - 1], t[|t| - 1];
      assert t == init + [last];
      InitNormal(init, last);
      ParseRawTexts(init);
      ParseRawTextsNext(init, last);
    }
  }

  lemma ParseRawTextsNext(init: Positions, last: Item<Position>)
    requires NormalItem(last) && ParseEntries(RawTexts(init)) == init
    requires forall x :: x in init ==> x.key != last.key
    ensures ParseEntries(RawTexts(init + [last])) == init + [last]
  {
    assert RawTexts(init + [last]) == RawTexts(init) + [RawText(last)];
    ParseRawText(RawTexts(init), last);
    PutAppends(init, last);
  }

  lemma WrittenSpec(entries: Positions)
    requires Normal(entries)
    ensures Coherent(Written(entries)) && Entries(Written(entries)) == Prune(entries, MAX_ENTRIES)
  {
    PruneSpec(entries, MAX_ENTRIES);
    KeepValidIdle(Prune(entries, MAX_ENTRIES));
    ParseRawTexts(Prune(entries, MAX_ENTRIES));
  }

  lemma SavedSpec(cache: Cache, item: Item<Position>)
    requires Coherent(cache) && NormalItem(item)
    ensures Coherent(Saved(cache, item))
    ensures Entries(Saved(cache, item)) == Prune(Put(Entries(cache), item), MAX_ENTRIES)
    ensures |Entries(Saved(cache, item))| <= MAX_ENTRIES
  {
    PutSpec(Entries(cache), item);
    WrittenSpec(Put(Entries(cache), item));
    PruneSpec(Put(Entries(cache), item), MAX_ENTRIES);
  }

  /** A save changes no other key's position, except that a full table may drop it. */
  lemma SavedElsewhere(cache: Cache, item: Item<Position>, key: string)
    requires Coherent(cache) && NormalItem(item) && key != item.key
    ensures var after := Entries(Saved(cache, item));
      Find(after, key) == Find(Entries(cache), key) || (Find(after, key) == None && |after| == MAX_ENTRIES)
  {
    var all := Put(Entries(cache), item);
    SavedSpec(cache, item);
    PutSpec(Entries(cache), item);
    SameEntriesSameFind(all, Entries(cache), key);
    PruneSpec(all, MAX_ENTRIES);
    var after := Prune(all, MAX_ENTRIES);
    if Find(after, key).Some? {
      FindUnique(all, Find(after, key).value);
    } else if |all| <= MAX_ENTRIES {
      PruneKeepsFind(all, MAX_ENTRIES, key);
    }
  }

  /**
    Cache coherence: whatever storage held when the page loaded and whatever was
    saved since, memory equals what a reload would read; after one save it holds
    at most 120 entries, all under valid keys.
  */
  lemma {:induction false} CacheCoherence(storage: ScrollText, items: seq<Item<Position>>)
    requires forall x :: x in items ==> NormalItem(x)
    ensures var cache := SavedAll(Cache(None, storage), items);
      Coherent(cache) && (items != [] ==> cache.memory.Some? && |Entries(cache)| <= MAX_ENTRIES)
  {
    if items == [] {
      FreshPageCoherent(storage);
    } else {
      assert items[|items| - 1] in items;
      CacheCoherence(storage, items[..|items| - 1]);
      SavedSpec(SavedAll(Cache(None, storage), items[..|items| - 1]), items[|items| - 1]);
    }
  }

  // ------------------------------------------------- the newest of everything

  /** Everything ever saved, one entry per key, with no cap. */
  function History(entries: Positions, items: seq<Item<Position>>): Positions {
    if items == [] then entries else Put(History(entries, items[..|items| - 1]), items[|items| - 1])
  }

  /** `t` is a choice of the `cap` newest entries of `all`. */
  ghost predicate NewestOf(t: Positions, all: Positions, cap: nat) {
    && DistinctKeys(t) && DistinctKeys(all)
    && (forall x :: x in t ==> x in all)
    && |t| == (if |all| <= cap then |all| else cap)
    && forall x, y :: x in all && x !in t && y in t ==> x.at <= y.at
  }

  ghost predicate ClockAdvances(entries: Positions, items: seq<Item<Position>>) {
    && (forall x, i :: x in entries && 0 <= i < |items| ==> x.at <= items[i].at)
    && forall i, j :: 0 <= i < j < |items| ==> items[i].at <= items[j].at
  }

  lemma NewestStep(t: Positions, all: Positions, cap: nat, item: Item<Position>)
    requires NewestOf(t, all, cap) && forall x :: x in all ==> x.at <= item.at
    ensures NewestOf(Prune(Put(t, item), cap), Put(all, item), cap)
  {
    PutSpec(t, item);
    PutSpec(all, item);
    PruneSpec(Put(t, item), cap);
    KeysWithin(t, all, item.key);
    if |all| <= cap {
      SameSize(t, all);
    }
  }

  lemma KeysWithin(t: Positions, all: Positions, key: string)
    requires DistinctKeys(all) && forall x :: x in t ==> x in all
    ensures HasKey(t, key) ==> HasKey(all, key)
  {
    if HasKey(t, key) {
      var i :| 0 <= i < |t| && t[i].key == key;
      assert t[i] in all;
      var j :| 0 <= j < |all| && all[j] == t[i];
    }
  }

  /** A subtable with as many entries holds every entry. */
  lemma {:induction false} SameSize(t: Positions, all: Positions)
    requires DistinctKeys(t) && DistinctKeys(all) && |t| == |all|
    requires forall x :: x in t ==> x in all
    ensures forall x :: x in all ==> x in t
  {
    if t != [] {
      TailDistinct(t);
      RemoveSpec(all, t[0].key);
      RemoveOne(all, t[0]);
      SameSize(t[1..], Remove(all, t[0].key));
      forall x | x in all
        ensures x in t
      {
        if x.key == t[0].key {
          FindUnique(all, x);
          FindUnique(all, t[0]);
        } else {
          assert x in t[1..];
        }
      }
    }
  }

  lemma {:induction false} RemoveOne(all: Positions, x: Item<Position>)
    requires DistinctKeys(all) && x in all
    ensures |Remove(all, x.key)| == |all| - 1
  {
    TailDistinct(all);
    if all[0].key == x.key {
      RemoveAbsent(all[1..], x.key);
    } else {
      RemoveOne(all[1..], x);
    }
  }

  lemma {:induction false} RemoveAbsent(all: Positions, key: string)
    requires forall x :: x in all ==> x.key != key
    ensures Remove(all, key) == all
  {
    if all != [] {
      assert all[0] in all;
      RemoveAbsent(all[1..], key);
    }
  }

  /** The capped table after the same saves. */
  function Capped(entries: Positions, items: seq<Item<Position>>): Positions {
    if items == [] then entries else Prune(Put(Capped(entries, items[..|items| - 1]), items[|items| - 1]), MAX_ENTRIES)
  }

  lemma {:induction false} SavedAllIsCapped(storage: ScrollText, items: seq<Item<Position>>)
    requires forall x :: x in items ==> NormalItem(x)
    ensures Entries(SavedAll(Cache(None, storage), items)) == Capped(Reload(storage), items)
  {
    if items != [] {
      var before := items[..|items| - 1];
      assert items[|items| - 1] in items && forall x :: x in before ==> x in items;
      SavedAllIsCapped(storage, before);
      CacheCoherence(storage, before);
      SavedSpec(SavedAll(Cache(None, storage), before), items[|items| - 1]);
    }
  }

  /** The first save may have to shrink an oversized table left by an older version. */
  lemma FirstSave(start: Positions, item: Item<Position>)
    requires DistinctKeys(start) && forall x :: x in start ==> x.at <= item.at
    ensures NewestOf(Prune(Put(start, item), MAX_ENTRIES), Put(start, item), MAX_ENTRIES)
  {
    PutSpec(start, item);
    PruneSpec(Put(start, item), MAX_ENTRIES);
  }

  lemma {:induction false} HistoryNotLater(start: Positions, items: seq<Item<Position>>)
    requires items != [] && DistinctKeys(start) && ClockAdvances(start, items)
    ensures DistinctKeys(History(start, items))
    ensures forall x :: x in History(start, items) ==> x.at <= items[|items| - 1].at
  {
    var before, last := items[..|items| - 1], items[|items| - 1];
    if before != [] {
      HistoryNotLater(start, before);
    }
    PutSpec(History(start, before), last);
  }

  lemma {:induction false} CappedIsNewest(start: Positions, items: seq<Item<Position>>)
    requires items != [] && DistinctKeys(start) && ClockAdvances(start, items)
    ensures NewestOf(Capped(start, items), History(start, items), MAX_ENTRIES)
  {
    var before, last := items[..|items| - 1], items[|items| - 1];
    if before == [] {
      FirstSave(start, last);
    } else {
      CappedIsNewest(start, before);
      HistoryNotLater(start, before);
      NewestStep(Capped(start, before), History(start, before), MAX_ENTRIES, last);
    }
  }

  /**
    If the clock never runs backwards, the capped cache holds the 120 newest of
    everything that was ever loaded or saved, and the last save itself whenever
    its time is strictly later than every earlier one.
  */
  lemma CacheHoldsNewest(storage: ScrollText, items: seq<Item<Position>>)
    requires items != [] && forall x :: x in items ==> NormalItem(x)
    requires ClockAdvances(Reload(storage), items)
    ensures var t := Entries(SavedAll(Cache(None, storage), items));
      var all := History(Reload(storage), items);
      var last := items[|items| - 1];
      && NewestOf(t, all, MAX_ENTRIES)
      && (forall x :: x in all ==> x.at <= last.at)
      && ((forall x :: x in all && x != last ==> x.at < last.at) ==> last in t)
  {
    var start := Reload(storage);
    FreshPageCoherent(storage);
    SavedAllIsCapped(storage, items);
    CappedIsNewest(start, items);
    HistoryNotLater(start, items);
    LastSaveKept(Capped(start, items), start, items);
  }

  lemma LastSaveKept(t: Positions, start: Positions, items: seq<Item<Position>>)
    requires items != [] && DistinctKeys(start) && ClockAdvances(start, items)
    requires NewestOf(t, History(start, items), MAX_ENTRIES)
    ensures var last := items[|items| - 1];
      (forall x :: x in History(start, items) && x != last ==> x.at < last.at) ==> last in t
  {
    var before, last := items[..|items| - 1], items[|items| - 1];
    if before != [] {
      HistoryNotLater(start, before);
    }
    PutSpec(History(start, before), last);
    assert last in History(start, items);
    if last !in t {
      assert |t| > 0;
      assert t[0] in t;
    }
  }
}
