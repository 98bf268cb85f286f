/** The mmap tier: the directory and its books, updated in place. The stamps come
    from a fixed-width counter that wraps and renumbers the queue. */
module MmapDisk {
  import opened Bindings
  import opened Tiers
  import opened Recency
  import Memory
  import opened DiskBooks

  class MmapDisk {
    const rules: Rules
    /** The directory: contents by file name. */
    var files: map<string, Value>
    /** Retained mappings, accounted sizes and live stamps by key. */
    var maps: map<Key, Value>
    var sizes: map<Key, nat>
    var stamps: map<Key, nat>
    var order: seq<Ticket>
    var total: nat
    var nextStamp: nat
    var evictions: nat
    var evictedBytes: nat

    /** Opens a directory. `names` lists it oldest first, as modification times do; names
        that are no key's encoding are passed over. A tier over its budget stays so
        until its next put. */
    constructor (rules: Rules, files: map<string, Value>, names: seq<string>)
      requires rules.encoding.Faithful() && Lists(files, names) && OwnNames(rules.encoding, files)
      requires |names| + 1 < rules.width && Weight(Scanned(rules, files, names)) <= Memory.MAX_USIZE
      ensures this.rules == rules && this.files == files
      ensures Valid() && Contents() == Scanned(rules, files, names) && maps == map[]
    {
      this.rules, this.files := rules, files;
      maps, sizes, stamps, order := map[], map[], map[], [];
      total, nextStamp, evictions, evictedBytes := 0, 0, 0, 0;
      new;
      ScanStarts(rules, Now(), files);
      Load(names);
      ScanGood(rules, Now(), files, names);
    }

    /** Accounts the listed files, oldest first. */
    method Load(names: seq<string>)
      requires Scanning(rules, Now(), files, []) && sizes == map[]
      requires Lists(files, names) && OwnNames(rules.encoding, files)
      requires |names| + 1 < rules.width && Weight(Scanned(rules, files, names)) <= Memory.MAX_USIZE
      modifies this`total, this`sizes, this`stamps, this`order, this`nextStamp
      ensures Scanning(rules, Now(), files, names)
    {
      var i := 0;
      while i < |names|
        invariant i <= |names| && |sizes| <= i
        invariant Scanning(rules, Now(), files, names[..i])
      {
        ListsAt(files, names, i);
        Visit(names[i], names[..i], names);
        i := i + 1;
      }
      assert names[..i] == names;
    }

    /** One listed file: accounted if its name is a key's, passed over otherwise. */
    method Visit(name: string, ghost done: seq<string>, ghost names: seq<string>)
      requires Scanning(rules, Now(), files, done) && OwnNames(rules.encoding, files)
      requires name in files && name !in done && done + [name] <= names && |sizes| + 1 < rules.width
      requires Weight(Scanned(rules, files, names)) <= Memory.MAX_USIZE
      modifies this`total, this`sizes, this`stamps, this`order, this`nextStamp
      ensures Scanning(rules, Now(), files, done + [name]) && |sizes| <= old(|sizes|) + 1
    {
      var key := rules.encoding.KeyOf(name);
      if key.Some? {
        Index(name, key.value, done, names);
      } else {
        ScanSkips(rules, Now(), files, done, name);
      }
    }

    /** Accounts one file found by the scan. */
    method Index(name: string, key: Key, ghost done: seq<string>, ghost names: seq<string>)
      requires rules.encoding.KeyOf(name) == Some(key) && rules.encoding.Name(key) == name
      requires Scanning(rules, Now(), files, done) && name in files && name !in done
      requires |sizes| + 1 < rules.width && done + [name] <= names
      requires Weight(Scanned(rules, files, names)) <= Memory.MAX_USIZE
      modifies this`total, this`sizes, this`stamps, this`order, this`nextStamp
      ensures Scanning(rules, Now(), files, done + [name]) && |sizes| <= old(|sizes|) + 1
    {
      ghost var b := Now();
      ScanReady(rules, b, files, done, name, key, names);
      total := Memory.SaturatingAdd(total, rules.len(files[name]));
      sizes := sizes[key := rules.len(files[name])];
      assert Now() == Counted(rules, b, name, key);
      InsertTicket(key);
      ScanAdds(rules, b, files, done, name, key, Now());
    }

    ghost function Now(): Books
      reads this
    {
      Books(files, maps, sizes, stamps, order, total, nextStamp)
    }

    ghost predicate Valid()
      reads this
    {
      Good(rules, Now())
    }

    /** The contents in eviction order. */
    ghost function Contents(): seq<Item>
      reads this
    {
      Items(rules, Now())
    }

    /** The keys of the live tickets, in queue order. */
    method CollectLive() returns (live: seq<Key>)
      ensures live == LiveKeys(stamps, order)
    {
      live := [];
      var i := 0;
      while i < |order|
        invariant i <= |order|
        invariant LiveKeys(stamps, order) == live + LiveKeys(stamps, order[i..])
      {
        if order[i].0 in stamps && stamps[order[i].0] == order[i].1 {
          live := live + [order[i].0];
        }
        i := i + 1;
      }
    }

    /** Hands out tickets from 1 to `live`, and to nobody else. */
    method Renumber(live: seq<Key>)
      requires Once(live)
      modifies this`order, this`stamps
      ensures order == Numbered(live, 1) && Renumbered(stamps, live)
    {
      order, stamps := [], map[];
      var i := 0;
      while i < |live|
        invariant i <= |live|
        invariant order == Numbered(live[..i], 1)
        invariant Renumbered(stamps, live[..i])
      {
        OnceSnoc(live, i);
        assert live[..i + 1] == live[..i] + [live[i]];
        stamps := stamps[live[i] := i + 1];
        order := order + [(live[i], i + 1)];
        i := i + 1;
      }
      assert live[..i] == live;
    }

    /** Drops the stale tickets and gives the live ones stamps from 1. */
    method Relabel(ghost high: nat)
      requires Memory.Ascending(order, 0, high)
      modifies this`order, this`stamps, this`nextStamp
      ensures order == Numbered(LiveKeys(old(stamps), old(order)), 1)
      ensures Renumbered(stamps, LiveKeys(old(stamps), old(order))) && nextStamp == |stamps|
    {
      LiveKeysOnce(stamps, order, 0, high);
      var live := CollectLive();
      Renumber(live);
      nextStamp := |stamps|;
    }

    /** Rebuilding the queue keeps what it stands for. */
    method RebuildTickets(ghost high: nat)
      requires Backed(rules, Now()) && |stamps| < rules.width && Queued(Cells(rules, Now()), order, high)
      modifies this`order, this`stamps, this`nextStamp
      ensures TicketsOk(rules, Now()) && Contents() == old(Contents())
      ensures stamps.Keys == old(stamps.Keys) && nextStamp == |stamps| == old(|stamps|)
    {
      ghost var was := Now();
      Relabel(high);
      RebuiltBooks(rules, was, Now(), high);
    }

    /** The counter wrapped to zero: renumbers the queue and counts on from there. */
    method Wrap(ghost high: nat)
      requires Backed(rules, Now()) && |stamps| + 1 < rules.width && Queued(Cells(rules, Now()), order, high)
      modifies this`order, this`stamps, this`nextStamp
      ensures StampReady(rules, old(Now()), Now())
    {
      RebuildTickets(high);
      ghost var b := Now();
      nextStamp := |stamps| + 1;
      CountedOn(rules, b);
      assert Now() == b.(nextStamp := b.nextStamp + 1);
    }

    /** The next stamp; when the counter wraps, the queue is renumbered first. */
    method FreshStamp() returns (stamp: nat)
      requires TicketsOk(rules, Now()) && |stamps| + 1 < rules.width
      modifies this`order, this`stamps, this`nextStamp
      ensures StampReady(rules, old(Now()), Now()) && stamp == nextStamp
    {
      ghost var b := Now();
      nextStamp := if nextStamp + 1 == rules.width then 0 else nextStamp + 1;
      if nextStamp == 0 {
        assert Now() == b.(nextStamp := 0);
        Wrap(b.nextStamp);
        WrappedReady(rules, b, Now(), 0);
      } else {
        CountedOn(rules, b);
      }
      stamp := nextStamp;
    }

    /** Sweeps stale tickets once they dominate the queue. */
    method CompactTickets()
      requires TicketsOk(rules, Now()) && stamps.Keys <= sizes.Keys
      modifies this`order
      ensures TicketsOk(rules, Now()) && Contents() == old(Contents())
      ensures |order| <= Memory.Max(2 * |sizes|, 16)
    {
      ghost var now := Cells(rules, Now());
      CellsStamped(rules.encoding, files, sizes, stamps);
      CellsFewer(now, stamps, sizes);
      if |order| > Memory.Max(2 * |sizes|, 16) {
        SweptQueued(now, order, nextStamp);
        RetainedSwept(now, stamps, order);
        order := Retained(stamps, order);
        assert Cells(rules, Now()) == now;
      }
    }

    /** Gives `key` a fresh last ticket; an older one goes stale. */
    method InsertTicket(key: Key)
      requires TicketsOk(rules, Now()) && |stamps| + 1 < rules.width
      requires key in sizes && rules.encoding.Name(key) in files && stamps.Keys <= sizes.Keys
      modifies this`order, this`stamps, this`nextStamp
      ensures TicketAdded(rules, old(Now()), Now(), key) && |order| <= Memory.Max(2 * |sizes|, 16)
    {
      ghost var b := Now();
      var stamp := FreshStamp();
      ghost var r := Now();
      stamps := stamps[key := stamp];
      order := order + [(key, stamp)];
      ghost var t := Now();
      TicketFiled(rules, b, r, key, t);
      CompactTickets();
      SweptAdded(rules, b, t, key, Now());
    }

    /** Takes tickets off the queue up to the first live one. */
    method PopOldest() returns (oldest: Option<Key>)
      requires TicketsOk(rules, Now())
      modifies this`order
      ensures oldest.None? ==> old(Contents()) == [] && order == []
      ensures oldest.Some? ==>
        && old(Contents()) != [] && oldest.value in stamps && oldest.value == old(Contents())[0].key
        && Queued(old(Cells(rules, Now())) - {oldest.value}, order, nextStamp)
        && Memory.Live(old(Cells(rules, Now())) - {oldest.value}, order) == old(Contents())[1..]
    {
      ghost var cells := Cells(rules, Now());
      CellsStamped(rules.encoding, files, sizes, stamps);
      while order != []
        invariant Queued(cells, order, nextStamp)
        invariant Memory.Live(cells, order) == old(Contents())
        decreases |order|
      {
        var ticket := order[0];
        Memory.PopTicket(cells, order, nextStamp);
        order := order[1..];
        if ticket.0 in stamps && stamps[ticket.0] == ticket.1 {
          return Some(ticket.0);
        }
      }
      return None;
    }

    method RemoveAccounting(key: Key) returns (size: Option<nat>)
      modifies this`maps, this`stamps, this`sizes, this`total
      ensures maps == old(maps) - {key} && stamps == old(stamps) - {key} && sizes == old(sizes) - {key}
      ensures size == Lookup(old(sizes), key)
      ensures total == Memory.SaturatingSub(old(total), if key in old(sizes) then old(sizes)[key] else 0)
      ensures Now() == Unaccounted(rules, old(Now()), key)
    {
      maps := maps - {key};
      stamps := stamps - {key};
      if key !in sizes {
        return None;
      }
      size := Some(sizes[key]);
      sizes := sizes - {key};
      total := Memory.SaturatingSub(total, size.value);
    }

    /** Writes a file by way of its temporary, maps it and accounts its size. */
    method Rewrite(key: Key, value: Value) returns (replaced: bool)
      requires rules.encoding.utf8(key) != []
      modifies this`files, this`maps, this`sizes, this`total
      ensures Now() == Rewritten(rules, old(Now()), key, value) && replaced == (key in old(sizes))
    {
      var path := rules.encoding.Name(key);
      var temporary := path + ".tmp";
      files := files[temporary := value];
      files := (files - {temporary})[path := files[temporary]];
      maps := maps[key := files[path]];
      replaced := key in sizes;
      if replaced {
        total := Memory.SaturatingSub(total, sizes[key]);
      }
      sizes := sizes[key := rules.len(value)];
    }

    /** Tickets a rewritten entry, when it is new or the order is by use. */
    method TicketRewritten(key: Key, replaced: bool)
      requires Untidy(rules, Now(), key) && replaced == (key in stamps)
      modifies this`stamps, this`order, this`nextStamp
      ensures Settled(rules, old(Now()), Now(), key)
    {
      ghost var n := Now();
      if !replaced || rules.eviction.Lru? {
        InsertTicket(key);
        TicketSettles(rules, n, Now(), key);
      } else {
        SettledAlready(rules, n, key);
      }
    }

    /** Rewrites an entry's file and settles its place in the queue. */
    method Refile(key: Key, value: Value)
      requires Valid() && rules.encoding.utf8(key) != [] && |sizes| + 1 < rules.width
      modifies this`files, this`maps, this`sizes, this`stamps, this`order, this`nextStamp, this`total
      ensures Settled(rules, Rewritten(rules, old(Now()), key, value), Now(), key)
    {
      RewrittenUntidy(rules, Now(), key, value);
      var replaced := Rewrite(key, value);
      TicketRewritten(key, replaced);
    }

    /** Files an entry, new or replacing, without looking at the budget. */
    method Place(key: Key, value: Value)
      requires Valid() && rules.encoding.utf8(key) != [] && |sizes| + 1 < rules.width
      requires total + rules.len(value) <= Memory.MAX_USIZE
      modifies this`files, this`maps, this`sizes, this`stamps, this`order, this`nextStamp, this`total
      ensures Valid() && Contents() == Placed(old(Contents()), Item(key, value, rules.len(value)), rules.eviction)
      ensures |sizes| <= old(|sizes|) + 1
    {
      ghost var b := Now();
      Refile(key, value);
      ghost var t := Now();
      total := Memory.SaturatingAdd(total, rules.len(value));
      PlacedGood(rules, b, t, key, value, Now());
    }

    /** Takes an evicted entry out of the accounts and the directory. */
    method Unlink(key: Key)
      modifies this`files, this`maps, this`sizes, this`stamps, this`total, this`evictions, this`evictedBytes
      ensures Now() == Dropped(rules, old(Now()), key, order)
      ensures key in old(sizes) ==> evictions == old(evictions) + 1 && evictedBytes == old(evictedBytes) + old(sizes)[key]
    {
      var size := RemoveAccounting(key);
      if size.Some? {
        evictions := evictions + 1;
        evictedBytes := evictedBytes + size.value;
      }
      files := files - {rules.encoding.Name(key)};
    }

    /** Evicts the oldest entry, reading its value back from its mapping or its file. */
    method EvictOldest() returns (displaced: Option<Tiers.Entry>)
      requires Valid()
      modifies this
      ensures Valid() && |sizes| <= old(|sizes|)
      ensures displaced.None? ==>
        Contents() == old(Contents()) == [] && evictions == old(evictions) && evictedBytes == old(evictedBytes)
      ensures displaced.Some? ==>
        && old(Contents()) != [] && displaced.value == Recency.Entry(old(Contents())[0]) && Contents() == old(Contents())[1..]
        && evictions == old(evictions) + 1 && evictedBytes == old(evictedBytes) + old(Contents())[0].weight
    {
      ghost var b, items := Now(), Contents();
      Facts(rules, b);
      var oldest := PopOldest();
      if oldest.None? {
        assert Now() == b.(order := []);
        EmptyQueue(rules, b);
        return None;
      }
      var key := oldest.value;
      FirstItem(rules, b);
      DroppedGood(rules, b, key, order);
      var bytes := if key in maps then Some(maps[key]) else Lookup(files, rules.encoding.Name(key));
      Unlink(key);
      assert Now() == Dropped(rules, b, key, order);
      displaced := if bytes.Some? then Some((key, bytes.value)) else None;
    }

    ghost function Limits(): Recency.Limits {
      Recency.Limits(None, rules.budget)
    }

    method IsOver() returns (over: bool)
      requires Valid()
      ensures over == Over(Contents(), Limits())
    {
      over := rules.budget.Some? && total > rules.budget.value;
    }

    /** Evicts in ticket order until the budget holds again. */
    method EvictOver() returns (displaced: Displaced)
      requires Valid()
      modifies this
      ensures Valid() && |sizes| <= old(|sizes|)
      ensures Contents() == Kept(old(Contents()), Limits()) && displaced == Evicted(old(Contents()), Limits())
      ensures evictions == old(evictions) + |displaced|
      ensures evictedBytes + Weight(Contents()) == old(evictedBytes + Weight(Contents()))
    {
      ghost var all, n := Contents(), 0;
      displaced := [];
      assert all[0..] == all && Entries(all[..0]) == [];
      var over := IsOver();
      while over
        invariant Valid() && over == Over(Contents(), Limits()) && |sizes| <= old(|sizes|)
        invariant Memory.Evicting(all, Limits(), n, Contents(), displaced)
        invariant evictions == old(evictions) + n
        invariant evictedBytes + Weight(Contents()) == old(evictedBytes + Weight(Contents()))
        decreases |Contents()|
      {
        ghost var before := Contents();
        var oldest := EvictOldest();
        if oldest.None? {
          break;
        }
        Memory.EvictingStep(all, Limits(), n, before, displaced);
        displaced := displaced + [oldest.value];
        n := n + 1;
        over := IsOver();
      }
    }

    /** Files an entry and evicts what the budget no longer holds. */
    method Store(key: Key, value: Value) returns (displaced: Displaced)
      requires Valid() && rules.encoding.utf8(key) != [] && |sizes| + 1 < rules.width
      requires total + rules.len(value) <= Memory.MAX_USIZE
      modifies this
      ensures Valid() && |sizes| <= old(|sizes|) + 1
      ensures
        var placed := Placed(old(Contents()), Item(key, value, rules.len(value)), rules.eviction);
        && Contents() == Kept(placed, Limits()) && displaced == Evicted(placed, Limits())
        && evictions == old(evictions) + |displaced|
        && evictedBytes + Weight(Contents()) == old(evictedBytes) + Weight(placed)
    {
      Place(key, value);
      displaced := EvictOver();
    }

    /** Writes an entry and evicts what the budget no longer holds, handing it back. The
        empty key's file cannot be renamed onto the directory. */
    method Put(key: Key, value: Value) returns (r: Result<Displaced>)
      requires Valid() && |sizes| + 1 < rules.width && total + rules.len(value) <= Memory.MAX_USIZE
      modifies this
      ensures Valid() && |sizes| <= old(|sizes|) + 1
      ensures sizes.Keys <= old(sizes.Keys) + {key}
      ensures r.Err? <==> rules.encoding.utf8(key) == []
      ensures r.Err? ==> Now() == old(Now()) && evictions == old(evictions) && evictedBytes == old(evictedBytes)
      ensures r.Ok? ==>
        var placed := Placed(old(Contents()), Item(key, value, rules.len(value)), rules.eviction);
        && Contents() == Kept(placed, Limits()) && r.value == Evicted(placed, Limits())
        && evictions == old(evictions) + |r.value|
        && evictedBytes + Weight(Contents()) == old(evictedBytes) + Weight(placed)
      ensures r.Ok? ==> !Over(Contents(), Limits())
      ensures r.Ok? ==> Accepted(Held(old(Contents())), [(key, value)], Held(Contents()), r.value)
    {
      EmptyKeyAbsent(rules, Now(), key);
      if rules.encoding.Name(key) == "" {
        return Err;
      }
      PutFacts(rules, Now(), key, value, Limits());
      PutKeys(rules, Now(), key, value, Limits());
      var displaced := Store(key, value);
      HeldKeys(rules, Now());
      r := Ok(displaced);
    }

    /** Refreshes an entry's place in the queue. */
    method Touch(key: Key)
      requires Valid() && |sizes| + 1 < rules.width
      modifies this`stamps, this`order, this`nextStamp
      ensures Valid() && Contents() == Touched(old(Contents()), key, Lru)
    {
      ghost var b := Now();
      TouchReady(rules, b, key);
      if key in sizes {
        InsertTicket(key);
        TouchedGood(rules, b, key, Now());
      }
    }

    /** Serves from the retained mapping, or maps the file. */
    method Get(key: Key) returns (r: Result<Option<Value>>)
      requires Valid() && |sizes| + 1 < rules.width
      modifies this`maps, this`stamps, this`order, this`nextStamp
      ensures Valid()
      ensures r == if rules.encoding.utf8(key) == [] then Err else Ok(Lookup(Held(old(Contents())), key))
      ensures Contents() == Touched(old(Contents()), key, rules.eviction)
      ensures r.Ok? && r.value.Some? ==> key in maps && maps[key] == r.value.value
    {
      EmptyKeyAbsent(rules, Now(), key);
      FileIsHeld(rules, Now(), key);
      Facts(rules, Now());
      if key in maps {
        r := Ok(Some(maps[key]));
        if rules.eviction.Lru? {
          Touch(key);
        }
        return;
      }
      if rules.encoding.Name(key) == "" {
        return Err;
      }
      var mapped := Lookup(files, rules.encoding.Name(key));
      if mapped.Some? && key in sizes {
        Retain(key, mapped.value);
      }
      r := Ok(mapped);
    }

    /** Retains a file's mapping, which counts as a use. */
    method Retain(key: Key, value: Value)
      requires Valid() && |sizes| + 1 < rules.width && key in sizes
      requires Lookup(files, rules.encoding.Name(key)) == Some(value)
      modifies this`maps, this`stamps, this`order, this`nextStamp
      ensures Valid() && Contents() == Touched(old(Contents()), key, rules.eviction)
      ensures key in maps && maps[key] == value
    {
      Mapped(rules, Now(), key);
      ghost var b := Now();
      maps := maps[key := value];
      assert Now() == b.(maps := maps);
      if rules.eviction.Lru? {
        Touch(key);
      }
    }

    /** The empty key's path, the directory itself, exists. */
    method Exists(key: Key) returns (found: bool)
      requires Valid()
      ensures found <==> key in Held(Contents()) || rules.encoding.utf8(key) == []
    {
      EmptyKeyAbsent(rules, Now(), key);
      FileIsHeld(rules, Now(), key);
      var path := rules.encoding.Name(key);
      found := key in maps || path == "" || path in files;
    }

    /** Takes a key out of the accounts, its file still there, and sweeps the queue. */
    method Forget(key: Key)
      requires Valid()
      modifies this`maps, this`sizes, this`stamps, this`order, this`total
      ensures Now() == Unaccounted(rules, old(Now()), key).(order := order)
      ensures TicketsOk(rules, Now()) && Contents() == Without(old(Contents()), key)
      ensures |order| <= Memory.Max(2 * |sizes|, 16)
    {
      UnaccountedTickets(rules, Now(), key);
      var size := RemoveAccounting(key);
      CompactTickets();
    }

    method RemoveFile(key: Key) returns (r: Result<bool>)
      modifies this`files
      ensures files == old(files) - {rules.encoding.Name(key)}
      ensures r == if rules.encoding.Name(key) == "" then Err else Ok(rules.encoding.Name(key) in old(files))
    {
      var path := rules.encoding.Name(key);
      r := if path == "" then Err else Ok(path in files);
      files := files - {path};
    }

    /** Removes an entry and its file. The directory, the empty key's path, is no file
        that could be removed. */
    method Delete(key: Key) returns (r: Result<bool>)
      requires Valid()
      modifies this`files, this`maps, this`sizes, this`stamps, this`order, this`total
      ensures Valid() && Contents() == Without(old(Contents()), key)
      ensures r == if rules.encoding.utf8(key) == [] then Err else Ok(key in Held(old(Contents())))
      ensures sizes == old(sizes) - {key} && |order| <= Memory.Max(2 * |sizes|, 16)
    {
      ghost var b := Now();
      RemovalAnswer(rules, b, key);
      Forget(key);
      DeletedGood(rules, b, key, Now());
      r := RemoveFile(key);
      assert Now() == Dropped(rules, b, key, order);
    }

    /** Drops every entry and its file. */
    method Clear()
      requires Valid()
      modifies this`files, this`maps, this`sizes, this`stamps, this`order, this`total
      ensures Valid() && Contents() == [] && files == map[] && total == 0
    {
      ghost var b := Now();
      maps, sizes, order, stamps := map[], map[], [], map[];
      total := 0;
      files := map[];
      EmptyGood(rules, b, Now());
    }
  }
}
