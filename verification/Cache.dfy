/** The cache as the program holds it: a map of entries, a linked list of elements, and a map back to keys. */
module Caching {
  import opened Common
  import opened CacheTypes
  import opened CacheSpec
  import opened CacheLaws
  import opened LinkedLists

  // ---------------------------------------------------------------- the three structures in step

  /** Element i of the list stands for key i of the recency sequence. */
  ghost predicate KeysListed(nodes: seq<Element<Key>>, recency: seq<Key>, lruKeys: map<Element<Key>, Key>)
  {
    && |nodes| == |recency|
    && forall i :: 0 <= i < |nodes| ==> nodes[i] in lruKeys && lruKeys[nodes[i]] == recency[i]
  }

  /** `lruKeys` knows the list's elements only, and `elementOf` is its inverse. */
  ghost predicate KeysInverse(nodes: seq<Element<Key>>,
                              lruKeys: map<Element<Key>, Key>, elementOf: map<Key, Element<Key>>)
  {
    && (forall e :: e in lruKeys ==> e in nodes && lruKeys[e] in elementOf && elementOf[lruKeys[e]] == e)
    && (forall key :: key in elementOf ==> elementOf[key] in lruKeys && lruKeys[elementOf[key]] == key)
  }

  ghost predicate InStep(nodes: seq<Element<Key>>, recency: seq<Key>,
                         lruKeys: map<Element<Key>, Key>, elementOf: map<Key, Element<Key>>)
  {
    KeysListed(nodes, recency, lruKeys) && KeysInverse(nodes, lruKeys, elementOf)
  }

  lemma WithoutMembers(nodes: seq<Element<Key>>, i: nat, e: Element<Key>)
    requires i < |nodes| && forall j, k :: 0 <= j < k < |nodes| ==> nodes[j] != nodes[k]
    ensures e in Without(nodes, i) <==> e in nodes && e != nodes[i]
  {
    if e in nodes && e != nodes[i] {
      var j :| 0 <= j < |nodes| && nodes[j] == e;
      assert Without(nodes, i)[if j < i then j else j - 1] == e;
    }
  }

  lemma KeysListedWithout(nodes: seq<Element<Key>>, recency: seq<Key>, lruKeys: map<Element<Key>, Key>, i: nat)
    requires KeysListed(nodes, recency, lruKeys) && Distinct(recency) && i < |nodes|
    ensures KeysListed(Without(nodes, i), Removed(recency, recency[i]), lruKeys)
    ensures Distinct(Removed(recency, recency[i]))
  {
    RemovedAt(recency, i);
    RemovedDistinct(recency, recency[i]);
  }

  lemma KeysListedMoved(nodes: seq<Element<Key>>, recency: seq<Key>, lruKeys: map<Element<Key>, Key>, i: nat)
    requires KeysListed(nodes, recency, lruKeys) && Distinct(recency) && i < |nodes|
    ensures KeysListed([nodes[i]] + Without(nodes, i), Touched(recency, recency[i]), lruKeys)
    ensures Distinct(Touched(recency, recency[i]))
  {
    hide Without, Removed;
    KeysListedWithout(nodes, recency, lruKeys, i);
    RemovedMembers(recency, recency[i], recency[i]);
  }

  lemma MoveInStep(nodes: seq<Element<Key>>, recency: seq<Key>,
                   lruKeys: map<Element<Key>, Key>, elementOf: map<Key, Element<Key>>, i: nat)
    requires InStep(nodes, recency, lruKeys, elementOf) && Distinct(recency) && i < |nodes|
    requires forall j, k :: 0 <= j < k < |nodes| ==> nodes[j] != nodes[k]
    ensures InStep([nodes[i]] + Without(nodes, i), Touched(recency, recency[i]), lruKeys, elementOf)
    ensures Distinct(Touched(recency, recency[i]))
  {
    KeysListedMoved(nodes, recency, lruKeys, i);
    forall e | e in lruKeys
      ensures e in [nodes[i]] + Without(nodes, i)
    {
      WithoutMembers(nodes, i, e);
    }
  }

  lemma RemoveInStep(nodes: seq<Element<Key>>, recency: seq<Key>,
                     lruKeys: map<Element<Key>, Key>, elementOf: map<Key, Element<Key>>, i: nat)
    requires InStep(nodes, recency, lruKeys, elementOf) && Distinct(recency) && i < |nodes|
    requires forall j, k :: 0 <= j < k < |nodes| ==> nodes[j] != nodes[k]
    ensures InStep(Without(nodes, i), Removed(recency, recency[i]), Drop(lruKeys, nodes[i]), Drop(elementOf, recency[i]))
    ensures Distinct(Removed(recency, recency[i]))
  {
    KeysListedWithout(nodes, recency, lruKeys, i);
    forall e | e in Drop(lruKeys, nodes[i])
      ensures e in Without(nodes, i)
    {
      WithoutMembers(nodes, i, e);
    }
    forall e | e in Without(nodes, i)
      ensures e in Drop(lruKeys, nodes[i])
    {
      WithoutMembers(nodes, i, e);
    }
  }

  lemma PushInStep(nodes: seq<Element<Key>>, recency: seq<Key>, lruKeys: map<Element<Key>, Key>,
                   elementOf: map<Key, Element<Key>>, e: Element<Key>, key: Key)
    requires InStep(nodes, recency, lruKeys, elementOf) && Distinct(recency)
    requires e !in nodes && key !in elementOf
    ensures InStep([e] + nodes, [key] + recency, lruKeys[e := key], elementOf[key := e])
    ensures Distinct([key] + recency)
  {
  }

  lemma InStepAt(nodes: seq<Element<Key>>, recency: seq<Key>,
                 lruKeys: map<Element<Key>, Key>, elementOf: map<Key, Element<Key>>, i: nat)
    requires InStep(nodes, recency, lruKeys, elementOf) && i < |nodes|
    ensures i < |recency| && nodes[i] in lruKeys && lruKeys[nodes[i]] == recency[i]
    ensures recency[i] in elementOf && elementOf[recency[i]] == nodes[i]
  {
  }

  lemma InStepEmpty(nodes: seq<Element<Key>>, recency: seq<Key>,
                    lruKeys: map<Element<Key>, Key>, elementOf: map<Key, Element<Key>>)
    requires InStep(nodes, recency, lruKeys, elementOf)
    ensures |nodes| == |recency| && (nodes == [] <==> elementOf.Keys == {})
  {
    if nodes != [] {
      InStepAt(nodes, recency, lruKeys, elementOf, 0);
    }
  }

  // ---------------------------------------------------------------- the cache

  class Entry {
    var value: Value
    var expiresAt: int
    var staleUntil: int
    var hasValue: bool
    var lruElement: Element?<Key>
    /** The key this entry was made for. */
    ghost const key: Key

    constructor (value: Value, expiresAt: int, staleUntil: int, ghost key: Key)
      ensures this.key == key && this.value == value && this.expiresAt == expiresAt && this.staleUntil == staleUntil
      ensures hasValue && lruElement == null
    {
      this.value, this.expiresAt, this.staleUntil := value, expiresAt, staleUntil;
      hasValue, lruElement, this.key := true, null, key;
    }
  }

  /** Every stored key has its own entry, which holds the key's record and its element of the list. */
  ghost predicate Match(items: map<Key, Entry>, records: map<Key, Record>, elementOf: map<Key, Element<Key>>,
                        entries: set<Entry>)
    reads entries
  {
    && (forall key :: key in items ==>
      && items[key] in entries && key in records && key in elementOf
      && items[key].key == key && items[key].hasValue && items[key].lruElement == elementOf[key]
      && records[key] == Record(items[key].value, items[key].expiresAt, items[key].staleUntil))
    && (forall key :: key in records ==> key in items)
    && (forall key :: key in elementOf ==> key in items)
  }

  lemma MatchDrop(items: map<Key, Entry>, records: map<Key, Record>, elementOf: map<Key, Element<Key>>,
                  entries: set<Entry>, key: Key)
    requires Match(items, records, elementOf, entries)
    ensures Match(Drop(items, key), Drop(records, key), Drop(elementOf, key), entries)
    ensures (key in items <==> key in elementOf) && key !in Drop(items, key)
    ensures key in items ==> items[key].lruElement == elementOf[key]
    ensures key in items ==> items[key] in entries && items[key].key == key
  {
  }

  lemma MatchAdd(items: map<Key, Entry>, records: map<Key, Record>, elementOf: map<Key, Element<Key>>,
                 entries: set<Entry>, entry: Entry, e: Element<Key>)
    requires Match(items, records, elementOf, entries)
    requires entry.key !in items && entry.hasValue && entry.lruElement == e
    ensures var record := Record(entry.value, entry.expiresAt, entry.staleUntil);
      Match(items[entry.key := entry], records[entry.key := record], elementOf[entry.key := e], entries + {entry})
  {
  }

  lemma MatchAt(items: map<Key, Entry>, records: map<Key, Record>, elementOf: map<Key, Element<Key>>,
                entries: set<Entry>, key: Key)
    requires Match(items, records, elementOf, entries)
    ensures key in items <==> key in records
    ensures key in items <==> key in elementOf
    ensures key in items ==> items[key].lruElement == elementOf[key] && items[key] in entries && items[key].key == key
    ensures |items| == |records|
  {
    MatchSize(items, records, elementOf, entries);
  }

  lemma MatchSize(items: map<Key, Entry>, records: map<Key, Record>, elementOf: map<Key, Element<Key>>,
                  entries: set<Entry>)
    requires Match(items, records, elementOf, entries)
    ensures |items| == |records|
  {
    assert items.Keys == records.Keys;
    assert |items| == |items.Keys| && |records| == |records.Keys|;
  }

  lemma MatchRecord(items: map<Key, Entry>, records: map<Key, Record>, elementOf: map<Key, Element<Key>>,
                    entries: set<Entry>, key: Key)
    requires Match(items, records, elementOf, entries)
    ensures key in items <==> key in records
    ensures key in items ==> var entry := items[key];
      entry.hasValue && records[key] == Record(entry.value, entry.expiresAt, entry.staleUntil)
  {
  }

  lemma MatchEmpty(items: map<Key, Entry>, records: map<Key, Record>, entries: set<Entry>)
    requires Match(items, records, map[], entries)
    ensures items == map[]
  {
    assert forall key :: key !in items;
  }

  class Cache {
    const cfg: Config
    var items: map<Key, Entry>
    const lruList: List<Key>
    var lruKeys: map<Element<Key>, Key>
    ghost var contents: Store
    /** The updates of the store since the cache was made. */
    ghost var history: seq<Update>
    ghost var elementOf: map<Key, Element<Key>>
    /** The entries of the map and those dropped from it. */
    ghost var entries: set<Entry>

    /** The list and its maps hold the keys of the recency sequence. */
    ghost predicate Lists(recency: seq<Key>)
      reads this`lruKeys, this`elementOf, lruList`nodes, lruList`elements, lruList`len
      reads lruList.elements`next, lruList.elements`prev, lruList.elements`list
    {
      lruList.Valid() && InStep(lruList.nodes, recency, lruKeys, elementOf) && Distinct(recency)
    }

    ghost predicate Valid()
      reads this, lruList, lruList.elements, entries
    {
      && Lists(contents.recency)
      && Match(items, contents.records, elementOf, entries)
      && (cfg.maxItems > 0 ==> |items| <= cfg.maxItems)
    }

    /** The contents are those that the history gives. */
    ghost predicate Recorded()
      reads this`contents, this`history
    {
      contents == StoreAfter(cfg, history)
    }

    constructor (cfg: Config)
      ensures Valid() && Recorded() && this.cfg == cfg && contents == Purged() && history == []
      ensures fresh(lruList) && fresh(lruList.elements) && entries == {}
    {
      this.cfg := cfg;
      var list := new List<Key>();
      lruList := list;
      items, lruKeys, contents, elementOf, entries := map[], map[], Purged(), map[], {};
      history := [];
    }

    method Len() returns (n: int)
      requires Valid()
      ensures n == |contents.records| && (cfg.maxItems > 0 ==> n <= cfg.maxItems)
    {
      MatchSize(items, contents.records, elementOf, entries);
      return |items|;
    }

    lemma ContentsWellFormed()
      requires Valid()
      ensures WellFormed(cfg, contents)
    {
      MatchSize(items, contents.records, elementOf, entries);
      forall key
        ensures key in contents.records <==> key in contents.recency
      {
        MatchAt(items, contents.records, elementOf, entries, key);
        if key in elementOf {
          var i := Place(contents.recency, key);
        } else if key in contents.recency {
          var i :| 0 <= i < |contents.recency| && contents.recency[i] == key;
          InStepAt(lruList.nodes, contents.recency, lruKeys, elementOf, i);
        }
      }
    }

    // -------------------------------------------------------------- the list and its maps

    lemma Place(recency: seq<Key>, key: Key) returns (i: int)
      requires Lists(recency) && key in elementOf
      ensures 0 <= i < |lruList.nodes| == |recency| && lruList.nodes[i] == elementOf[key] && recency[i] == key
      ensures elementOf[key].list == lruList
    {
      i :| 0 <= i < |lruList.nodes| && lruList.nodes[i] == elementOf[key];
    }

    method MoveElement(ghost recency: seq<Key>, ghost key: Key, e: Element<Key>)
      requires Lists(recency) && key in elementOf && elementOf[key] == e
      modifies lruList, lruList.elements
      ensures Lists(Touched(recency, key)) && lruList.elements == old(lruList.elements)
    {
      ghost var i, nodes := -1, lruList.nodes;
      i := Place(recency, key);
      MoveInStep(nodes, recency, lruKeys, elementOf, i);
      lruList.MoveToFront(e, i);
    }

    lemma RemovePlace(recency: seq<Key>, key: Key) returns (i: int)
      requires Lists(recency) && key in elementOf
      ensures 0 <= i < |lruList.nodes| && lruList.nodes[i] == elementOf[key] && elementOf[key].list == lruList
      ensures InStep(Without(lruList.nodes, i), Removed(recency, key),
                     Drop(lruKeys, elementOf[key]), Drop(elementOf, key))
      ensures Distinct(Removed(recency, key))
    {
      i := Place(recency, key);
      RemoveInStep(lruList.nodes, recency, lruKeys, elementOf, i);
    }

    method RemoveElement(ghost recency: seq<Key>, ghost key: Key, e: Element<Key>)
      requires Lists(recency) && key in elementOf && elementOf[key] == e
      modifies this`lruKeys, this`elementOf, lruList, lruList.elements
      ensures Lists(Removed(recency, key)) && lruList.elements == old(lruList.elements)
      ensures elementOf == Drop(old(elementOf), key)
    {
      hide InStep, Distinct, List.Valid, List.Linked, Without, Drop;
      ghost var i := RemovePlace(recency, key);
      lruList.Remove(e, i);
      lruKeys := Drop(lruKeys, e);
      elementOf := Drop(elementOf, key);
    }

    method PushElement(ghost recency: seq<Key>, key: Key) returns (e: Element<Key>)
      requires Lists(recency) && key !in elementOf
      modifies this`lruKeys, this`elementOf, lruList, lruList.elements
      ensures Lists([key] + recency) && fresh(lruList.elements - old(lruList.elements))
      ensures elementOf == old(elementOf)[key := e]
    {
      ghost var nodes := lruList.nodes;
      e := lruList.PushFront(key);
      PushInStep(nodes, recency, lruKeys, elementOf, e, key);
      lruKeys := lruKeys[e := key];
      elementOf := elementOf[key := e];
    }

    method LastElement(ghost recency: seq<Key>) returns (e: Element?<Key>)
      requires Lists(recency)
      ensures recency == [] <==> e == null
      ensures e == null ==> elementOf == map[]
      ensures e != null ==> e in lruKeys && lruKeys[e] == recency[|recency| - 1]
      ensures e != null ==> lruKeys[e] in elementOf && elementOf[lruKeys[e]] == e
      ensures e != null ==> Removed(recency, lruKeys[e]) == recency[..|recency| - 1]
    {
      InStepEmpty(lruList.nodes, recency, lruKeys, elementOf);
      e := lruList.Back();
      if e != null {
        InStepAt(lruList.nodes, recency, lruKeys, elementOf, |lruList.nodes| - 1);
        RemovedLast(recency);
      }
    }

    /** The last step of an eviction or deletion: the key's entry leaves the map. */
    method DeleteItem(key: Key, ghost after: Store)
      requires Lists(after.recency) && Match(Drop(items, key), after.records, elementOf, entries)
      requires cfg.maxItems > 0 ==> |items| <= cfg.maxItems
      modifies this`items, this`contents
      ensures Valid() && items == Drop(old(items), key) && contents == after
    {
      hide Lists, Match, Drop;
      contents := after;
      items := Drop(items, key);
    }

    // -------------------------------------------------------------- the operations under the lock

    /** The code's nil check on `lruElement` never succeeds here: every entry of the map has an element. */
    method TouchLocked(key: Key, entry: Entry)
      requires Valid() && key in items && items[key] == entry
      modifies this`contents, lruList, lruList.elements
      ensures Valid() && lruList.elements == old(lruList.elements)
      ensures contents == CacheSpec.Touch(old(contents), key)
    {
      hide Lists, Match;
      MatchAt(items, contents.records, elementOf, entries, key);
      MoveElement(contents.recency, key, entry.lruElement);
      contents := CacheSpec.Touch(contents, key);
    }

    /** The history grows by the update just done. */
    ghost method Note(update: Update)
      requires Valid() && contents == Updated(cfg, StoreAfter(cfg, history), update)
      modifies this`history
      ensures Valid() && Recorded() && history == old(history) + [update]
    {
      hide Lists, Match, Updated;
      history := history + [update];
      assert history[..|history| - 1] == old(history);
    }

    method Touch(key: Key)
      requires Valid() && Recorded()
      modifies this`contents, this`history, lruList, lruList.elements
      ensures Valid() && Recorded() && lruList.elements == old(lruList.elements)
      ensures contents == CacheSpec.Touch(old(contents), key) && history == old(history) + [Use(key)]
    {
      hide Lists, StoreAfter;
      MatchAt(items, contents.records, elementOf, entries, key);
      if key in items {
        TouchLocked(key, items[key]);
      }
      Note(Use(key));
    }

    /** The code's fallback for an element without a key is never taken either. */
    method EvictOneLocked()
      requires Valid()
      modifies this`items, this`lruKeys, this`contents, this`elementOf, lruList, lruList.elements
      ensures Valid() && lruList.elements == old(lruList.elements)
      ensures contents == EvictOne(old(contents))
      ensures old(items) != map[] ==> |items| == |old(items)| - 1
      ensures forall key :: key in items ==> key in old(items)
    {
      hide Lists, Match, Drop;
      var leastRecent := LastElement(contents.recency);
      if leastRecent == null {
        MatchEmpty(items, contents.records, entries);
        return;
      }
      var element: Element<Key> := leastRecent;
      var evictKey := lruKeys[element];
      MatchDrop(items, contents.records, elementOf, entries, evictKey);
      RemoveElement(contents.recency, evictKey, element);
      DeleteItem(evictKey, EvictOne(contents));
    }

    /** `rest` and `records` are what remains of the cache without the key. */
    method RemoveLRULocked(key: Key, entry: Entry, ghost rest: map<Key, Entry>, ghost records: map<Key, Record>)
      requires Lists(contents.recency) && key in elementOf && elementOf[key] == entry.lruElement
      requires Match(rest, records, Drop(elementOf, key), entries) && entry.key !in rest
      modifies this`lruKeys, this`elementOf, lruList, lruList.elements, entry`lruElement
      ensures Lists(Removed(contents.recency, key)) && lruList.elements == old(lruList.elements)
      ensures Match(rest, records, elementOf, entries)
      ensures entry.lruElement == null
    {
      hide Lists, Match, Drop, Removed;
      RemoveElement(contents.recency, key, entry.lruElement);
      ForgetElement(entry, rest, records);
    }

    /** The entry of a dropped key gives up its element; the other entries are unaffected. */
    method ForgetElement(entry: Entry, ghost rest: map<Key, Entry>, ghost records: map<Key, Record>)
      requires Match(rest, records, elementOf, entries) && entry.key !in rest
      modifies entry`lruElement
      ensures Match(rest, records, elementOf, entries) && entry.lruElement == null
    {
      entry.lruElement := null;
    }

    method Delete(key: Key)
      requires Valid() && Recorded()
      modifies this, lruList, lruList.elements, entries
      ensures Valid() && Recorded() && lruList.elements == old(lruList.elements) && entries == old(entries)
      ensures contents == CacheSpec.Delete(old(contents), key) && history == old(history) + [Forget(key)]
    {
      hide Lists, Match, Drop, StoreAfter;
      MatchAt(items, contents.records, elementOf, entries, key);
      if key in items {
        MatchDrop(items, contents.records, elementOf, entries, key);
        RemoveLRULocked(key, items[key], Drop(items, key), Drop(contents.records, key));
        DeleteItem(key, CacheSpec.Delete(contents, key));
      }
      Note(Forget(key));
    }

    method Purge()
      requires Valid()
      modifies this, lruList, lruList.elements
      ensures Valid() && Recorded() && contents == Purged() && history == old(history) + [Clear]
    {
      hide Lists, Match, StoreAfter;
      PurgeLocked();
      Note(Clear);
    }

    method PurgeLocked()
      requires Valid()
      modifies this`items, this`lruKeys, this`contents, this`elementOf, this`entries, lruList, lruList.elements
      ensures Valid() && contents == Purged()
    {
      items := map[];
      lruList.Init();
      lruKeys := map[];
      contents, elementOf, entries := Purged(), map[], {};
    }

    /** The branch of `set` for a key that is present: the four fields, one after the other. */
    method Overwrite(key: Key, entry: Entry, value: Value, now: int)
      requires Match(items, contents.records, elementOf, entries) && key in items && items[key] == entry
      modifies entry`value, entry`expiresAt, entry`staleUntil, entry`hasValue, this`contents
      ensures contents == old(contents).(records := old(contents.records)[key := NewRecord(cfg, value, now)])
      ensures Match(items, contents.records, elementOf, entries)
    {
      entry.value := value;
      entry.expiresAt := now + cfg.ttl;
      entry.staleUntil := now + (cfg.ttl + cfg.staleExtension);
      entry.hasValue := true;
      contents := contents.(records := contents.records[key := NewRecord(cfg, value, now)]);
    }

    method Set(key: Key, value: Value, now: int)
      requires Valid() && Recorded()
      modifies this, lruList, lruList.elements, entries
      ensures Valid() && Recorded()
      ensures fresh(lruList.elements - old(lruList.elements)) && fresh(entries - old(entries))
      ensures contents == CacheSpec.Set(cfg, old(contents), key, value, now)
      ensures history == old(history) + [Put(key, value, now)]
      ensures key in contents.records && contents.records[key].value == value
      ensures contents.records[key].expiresAt == now + cfg.ttl
      ensures contents.records[key].staleUntil == now + cfg.ttl + cfg.staleExtension
    {
      hide Lists, Match, Drop, StoreAfter;
      MatchAt(items, contents.records, elementOf, entries, key);
      if key in items {
        SetExisting(key, items[key], value, now);
      } else {
        SetNew(key, value, now);
      }
      Note(Put(key, value, now));
    }

    method SetExisting(key: Key, existingEntry: Entry, value: Value, now: int)
      requires Valid() && key in items && items[key] == existingEntry
      modifies this`contents, lruList, lruList.elements, existingEntry
      ensures Valid() && lruList.elements == old(lruList.elements)
      ensures contents == Store(old(contents.records)[key := NewRecord(cfg, value, now)],
                                Touched(old(contents.recency), key))
    {
      hide Lists, Match;
      MatchAt(items, contents.records, elementOf, entries, key);
      Overwrite(key, existingEntry, value, now);
      TouchLocked(key, existingEntry);
    }

    method SetNew(key: Key, value: Value, now: int)
      requires Valid() && key !in items
      modifies this`items, this`lruKeys, this`contents, this`elementOf, this`entries, lruList, lruList.elements
      ensures Valid() && fresh(lruList.elements - old(lruList.elements)) && fresh(entries - old(entries))
      ensures var room := if IsFull(cfg, old(contents)) then EvictOne(old(contents)) else old(contents);
        contents == Store(room.records[key := NewRecord(cfg, value, now)], [key] + room.recency)
    {
      hide Lists, Match, Drop;
      MatchAt(items, contents.records, elementOf, entries, key);
      if cfg.maxItems > 0 && |items| >= cfg.maxItems {
        EvictOneLocked();
      }
      Insert(key, value, now);
    }

    /** The branch of `set` for a new key, when there is room. */
    method Insert(key: Key, value: Value, now: int)
      requires Valid() && key !in items && (cfg.maxItems > 0 ==> |items| < cfg.maxItems)
      modifies this`items, this`lruKeys, this`contents, this`elementOf, this`entries, lruList, lruList.elements
      ensures Valid() && fresh(lruList.elements - old(lruList.elements)) && fresh(entries - old(entries))
      ensures contents == Store(old(contents.records)[key := NewRecord(cfg, value, now)], [key] + old(contents.recency))
    {
      hide Lists, Match;
      MatchAt(items, contents.records, elementOf, entries, key);
      var newEntry := new Entry(value, now + cfg.ttl, now + (cfg.ttl + cfg.staleExtension), key);
      var element := PushElement(contents.recency, key);
      SetElement(newEntry, element, old(elementOf));
      AddItem(key, newEntry, Store(contents.records[key := NewRecord(cfg, value, now)], [key] + contents.recency));
    }

    /** A new entry gets its element, and may enter the map; the entries of the map are unaffected. */
    method SetElement(entry: Entry, element: Element<Key>, ghost others: map<Key, Element<Key>>)
      requires entry !in entries && entry.key !in items && entry.hasValue
      requires Match(items, contents.records, others, entries)
      modifies entry`lruElement
      ensures var record := Record(entry.value, entry.expiresAt, entry.staleUntil);
        Match(items[entry.key := entry], contents.records[entry.key := record],
              others[entry.key := element], entries + {entry})
    {
      entry.lruElement := element;
      MatchAdd(items, contents.records, others, entries, entry, element);
    }

    /** The last step of an insertion: the entry enters the map. */
    method AddItem(key: Key, entry: Entry, ghost after: Store)
      requires Lists(after.recency) && Match(items[key := entry], after.records, elementOf, entries + {entry})
      requires key !in items && (cfg.maxItems > 0 ==> |items| < cfg.maxItems)
      modifies this`items, this`contents, this`entries
      ensures Valid() && contents == after && entries == old(entries) + {entry}
    {
      hide Lists, Match;
      contents := after;
      entries := entries + {entry};
      items := items[key := entry];
    }

    // -------------------------------------------------------------- the public operations, one call at a time

    /** GetOrLoad when no other call is under way. `loader` is what the loader would return, and `loadedAt` the
        clock when it has; `refresh` says that a background refresh was started. */
    method GetOrLoad(key: Key, now: int, loader: Load, loadedAt: int)
      returns (value: Value, cached: bool, err: Option<LoadError>, refresh: bool)
      requires Valid() && Recorded()
      modifies this, lruList, lruList.elements, entries
      ensures Valid() && Recorded()
      ensures fresh(lruList.elements - old(lruList.elements)) && fresh(entries - old(entries))
      ensures contents == Got(cfg, old(contents), key, now, loader, loadedAt)
      ensures key in old(contents).records ==> LastPut(old(history), key).Some?
      ensures cached <==>
        && key in old(contents).records
        && var at := LastPut(old(history), key).value.at;
           now < at + cfg.ttl || now < at + cfg.ttl + cfg.staleExtension
      ensures refresh <==> cached && LastPut(old(history), key).value.at + cfg.ttl <= now
      ensures cached ==> err == None && value == LastPut(old(history), key).value.value
      ensures history ==
        if cached then old(history) + [Use(key)]
        else if loader.Loaded? then old(history) + [Put(key, loader.value, loadedAt)]
        else old(history)
      ensures !cached ==> match loader
                          case Loaded(v) => err == None && value == v
                          case Failed(e) => err == Some(e)
    {
      hide Lists, Match, Drop, StoreAfter, LastPut;
      var zeroValue: Value := *;

      WindowsOf(key);
      MatchRecord(items, contents.records, elementOf, entries, key);
      if key in items {
        var entry := items[key];
        if entry.hasValue && now < entry.expiresAt {
          Touch(key);
          return entry.value, true, None, false;
        }
        if entry.hasValue && now < entry.staleUntil {
          Touch(key);
          return entry.value, true, None, true;
        }
      }

      match loader
      case Failed(e) => return zeroValue, false, Some(e), false;
      case Loaded(v) =>
        Set(key, v, loadedAt);
        return v, false, None, false;
    }

    /** What a stored key's windows are, told from the history. */
    lemma WindowsOf(key: Key)
      requires Recorded()
      ensures key in contents.records ==>
        && LastPut(history, key).Some?
        && var record, last := contents.records[key], LastPut(history, key).value;
           && record.value == last.value
           && record.expiresAt == last.at + cfg.ttl
           && record.staleUntil == last.at + cfg.ttl + cfg.staleExtension
    {
      if key in contents.records {
        StoredIsLastPut(cfg, history, key);
      }
    }

    method RefreshAsync(key: Key, loader: Load, loadedAt: int)
      requires Valid() && Recorded()
      modifies this, lruList, lruList.elements, entries
      ensures Valid() && Recorded()
      ensures fresh(lruList.elements - old(lruList.elements)) && fresh(entries - old(entries))
      ensures history ==
        if loader.Loaded? then old(history) + [Put(key, loader.value, loadedAt)] else old(history)
      ensures contents == Refreshed(cfg, old(contents), key, loader, loadedAt)
    {
      match loader
      case Failed(_) =>
      case Loaded(v) => Set(key, v, loadedAt);
    }
  }
}
