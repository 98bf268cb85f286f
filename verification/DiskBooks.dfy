/** The mmap tier's books on values: one file per key in a directory, with sizes,
    retained mappings and stamped tickets accounted in memory. The live tickets are
    the list of `Recency`, with file lengths as weights: the same kind of list the
    memory tier stands for. */
module DiskBooks {
  import opened Bindings
  import opened Tiers
  import opened Recency
  import Memory
  import opened HexNames
  import opened Records

  type Ticket = Memory.Ticket

  /** How keys are encoded as bytes, and which byte strings are a key's encoding. */
  datatype Encoding = Encoding(utf8: Key -> Bytes, text: Bytes -> Option<Key>) {
    ghost predicate Faithful() {
      && (forall k :: text(utf8(k)) == Some(k))
      && (forall b :: text(b).Some? ==> utf8(text(b).value) == b)
    }

    function Name(k: Key): string {
      Encode(utf8(k))
    }

    /** The key a file name stands for, if any. */
    function KeyOf(name: string): Option<Key> {
      var bytes := Decode(name);
      if bytes.None? then None else text(bytes.value)
    }
  }

  lemma {:induction false} NameRoundTrip(encoding: Encoding, k: Key)
    requires encoding.Faithful()
    ensures encoding.KeyOf(encoding.Name(k)) == Some(k)
  {
    RoundTrip(encoding.utf8(k));
  }

  lemma {:induction false} TemporaryIsNoEntry(encoding: Encoding, k: Key)
    ensures encoding.KeyOf(encoding.Name(k) + ".tmp") == None
  {
    TemporaryRejected(encoding.utf8(k));
  }

  /** The accounting read as the memory tier's cells: values are file contents. */
  ghost function CellsOf(encoding: Encoding, files: map<string, Value>, sizes: map<Key, nat>, stamps: map<Key, nat>): Memory.Cells {
    map k | k in stamps && k in sizes && encoding.Name(k) in files ::
      Memory.Cell(files[encoding.Name(k)], sizes[k], stamps[k])
  }

  /** Every stamped key has its size and its file. */
  ghost predicate BackedBy(encoding: Encoding, files: map<string, Value>, sizes: map<Key, nat>, stamps: map<Key, nat>) {
    forall k :: k in stamps ==> k in sizes && encoding.Name(k) in files
  }

  ghost predicate StampsOf(cells: Memory.Cells, stamps: map<Key, nat>) {
    cells.Keys == stamps.Keys && forall k :: k in cells ==> cells[k].stamp == stamps[k]
  }

  ghost predicate SameEntries(a: Memory.Cells, b: Memory.Cells) {
    a.Keys == b.Keys && forall k :: k in a ==> a[k].value == b[k].value && a[k].weight == b[k].weight
  }

  lemma {:induction false} CellsStamped(encoding: Encoding, files: map<string, Value>, sizes: map<Key, nat>, stamps: map<Key, nat>)
    requires BackedBy(encoding, files, sizes, stamps)
    ensures StampsOf(CellsOf(encoding, files, sizes, stamps), stamps)
  {
  }

  lemma {:induction false} RestampedSame(encoding: Encoding, files: map<string, Value>, sizes: map<Key, nat>, a: map<Key, nat>, b: map<Key, nat>)
    requires a.Keys == b.Keys
    ensures SameEntries(CellsOf(encoding, files, sizes, a), CellsOf(encoding, files, sizes, b))
  {
  }

  /** Stamps rise along the queue up to `high`, and every cell has its live ticket. */
  ghost predicate Queued(cells: Memory.Cells, order: seq<Ticket>, high: nat) {
    Memory.Ascending(order, 0, high) && Memory.Ticketed(cells, order)
  }

  // ----- renumbering the queue -----

  /** The keys with a live ticket, in queue order. */
  function LiveKeys(stamps: map<Key, nat>, order: seq<Ticket>): seq<Key> {
    if order == [] then []
    else (if order[0].0 in stamps && stamps[order[0].0] == order[0].1 then [order[0].0] else []) + LiveKeys(stamps, order[1..])
  }

  /** Tickets `from`, `from + 1`, … for `keys`. */
  function Numbered(keys: seq<Key>, from: nat): (r: seq<Ticket>)
    ensures |r| == |keys|
    ensures forall i :: 0 <= i < |r| ==> r[i] == (keys[i], from + i)
  {
    seq(|keys|, i requires 0 <= i < |keys| => (keys[i], from + i))
  }

  ghost function ItemsFor(cells: Memory.Cells, keys: seq<Key>): seq<Item> {
    if keys == [] then []
    else (if keys[0] in cells then [Item(keys[0], cells[keys[0]].value, cells[keys[0]].weight)] else []) + ItemsFor(cells, keys[1..])
  }

  lemma {:induction false} ItemsForCons(cells: Memory.Cells, k: Key, rest: seq<Key>)
    requires k in cells
    ensures ItemsFor(cells, [k] + rest) == [Item(k, cells[k].value, cells[k].weight)] + ItemsFor(cells, rest)
  {
    assert ([k] + rest)[1..] == rest;
  }

  /** The live items are the items of the live keys. */
  lemma {:induction false} LiveIsItems(cells: Memory.Cells, stamps: map<Key, nat>, order: seq<Ticket>)
    requires StampsOf(cells, stamps)
    ensures Memory.Live(cells, order) == ItemsFor(cells, LiveKeys(stamps, order))
    ensures forall k :: k in LiveKeys(stamps, order) ==> k in cells
  {
    if order != [] {
      var (k, rest) := (order[0].0, LiveKeys(stamps, order[1..]));
      LiveIsItems(cells, stamps, order[1..]);
      assert k in stamps <==> k in cells;
      if k in stamps && stamps[k] == order[0].1 {
        ItemsForCons(cells, k, rest);
        assert LiveKeys(stamps, order) == [k] + rest;
      } else {
        assert LiveKeys(stamps, order) == [] + rest == rest;
      }
    }
  }

  lemma {:induction false} LiveKeysTicketed(stamps: map<Key, nat>, order: seq<Ticket>, k: Key)
    ensures k in LiveKeys(stamps, order) <==> k in stamps && (k, stamps[k]) in order
  {
    if order != [] {
      LiveKeysTicketed(stamps, order[1..], k);
      assert order == [order[0]] + order[1..];
    }
  }

  /** A rising queue names each live key once. */
  lemma {:induction false} LiveKeysOnce(stamps: map<Key, nat>, order: seq<Ticket>, low: nat, high: nat)
    requires Memory.Ascending(order, low, high)
    ensures Once(LiveKeys(stamps, order))
  {
    if order != [] {
      var rest := LiveKeys(stamps, order[1..]);
      LiveKeysOnce(stamps, order[1..], order[0].1, high);
      LiveKeysTicketed(stamps, order[1..], order[0].0);
      if order[0].0 in stamps && stamps[order[0].0] == order[0].1 {
        if order[0] in order[1..] {
          var i :| 0 <= i < |order[1..]| && order[1..][i] == order[0];
          Memory.StampBounds(order[1..], order[0].1, high, i);
        }
        assert ([order[0].0] + rest)[1..] == rest;
      } else {
        assert [] + rest == rest;
      }
    }
  }

  ghost predicate Once(keys: seq<Key>) {
    keys == [] || (keys[0] !in keys[1..] && Once(keys[1..]))
  }

  lemma {:induction false} OnceSnoc(keys: seq<Key>, i: nat)
    requires Once(keys) && i < |keys|
    ensures keys[i] !in keys[..i]
  {
    if i > 0 {
      OnceSnoc(keys[1..], i - 1);
      assert keys[..i] == [keys[0]] + keys[1..][..i - 1];
      assert keys[i] == keys[1..][i - 1];
    }
  }

  /** Renumbered tickets rise without gaps and are all live. */
  lemma {:induction false} NumberedRises(keys: seq<Key>, from: nat)
    requires from > 0
    ensures Memory.Ascending(Numbered(keys, from), from - 1, from - 1 + |keys|)
  {
    if keys != [] {
      NumberedRises(keys[1..], from + 1);
      assert Numbered(keys, from)[1..] == Numbered(keys[1..], from + 1);
    }
  }

  lemma {:induction false} NumberedLive(cells: Memory.Cells, keys: seq<Key>, from: nat)
    requires forall i :: 0 <= i < |keys| ==> keys[i] in cells && cells[keys[i]].stamp == from + i
    ensures Memory.Live(cells, Numbered(keys, from)) == ItemsFor(cells, keys)
  {
    if keys != [] {
      NumberedLive(cells, keys[1..], from + 1);
      assert Numbered(keys, from)[1..] == Numbered(keys[1..], from + 1);
    }
  }

  lemma {:induction false} SameItems(a: Memory.Cells, b: Memory.Cells, keys: seq<Key>)
    requires a.Keys == b.Keys
    requires forall k :: k in a ==> a[k].value == b[k].value && a[k].weight == b[k].weight
    ensures ItemsFor(a, keys) == ItemsFor(b, keys)
  {
    if keys != [] {
      SameItems(a, b, keys[1..]);
    }
  }

  /** The stamps after renumbering `keys` from 1. */
  ghost predicate Renumbered(stamps: map<Key, nat>, keys: seq<Key>) {
    && (forall k :: k in stamps <==> k in keys)
    && (forall i :: 0 <= i < |keys| ==> stamps[keys[i]] == i + 1)
  }

  lemma {:induction false} LiveKeysCount(cells: Memory.Cells, stamps: map<Key, nat>, order: seq<Ticket>, high: nat)
    requires StampsOf(cells, stamps)
    requires Memory.Ascending(order, 0, high) && Memory.Ticketed(cells, order)
    ensures |LiveKeys(stamps, order)| == |stamps|
  {
    LiveIsItems(cells, stamps, order);
    Memory.LiveSize(cells, order, high);
    ItemsForAll(cells, LiveKeys(stamps, order));
    assert |cells.Keys| == |cells| && |stamps.Keys| == |stamps|;
  }

  lemma {:induction false} LiveKeysAll(cells: Memory.Cells, stamps: map<Key, nat>, order: seq<Ticket>)
    requires StampsOf(cells, stamps) && Memory.Ticketed(cells, order)
    ensures forall k :: k in LiveKeys(stamps, order) <==> k in stamps
  {
    forall k
      ensures k in LiveKeys(stamps, order) <==> k in stamps
    {
      LiveKeysTicketed(stamps, order, k);
      assert k in stamps ==> k in cells;
    }
  }

  /** What a rebuild makes of the queue, once the live keys have the stamps from 1. */
  lemma {:induction false} Rebuilt(cells: Memory.Cells, now: Memory.Cells, stamps: map<Key, nat>, renewed: map<Key, nat>,
                                   order: seq<Ticket>, high: nat)
    requires StampsOf(cells, stamps) && StampsOf(now, renewed) && SameEntries(cells, now)
    requires Memory.Ascending(order, 0, high) && Memory.Ticketed(cells, order)
    requires Renumbered(renewed, LiveKeys(stamps, order))
    ensures
      var queue := Numbered(LiveKeys(stamps, order), 1);
      Memory.Live(now, queue) == Memory.Live(cells, order) && Queued(now, queue, |stamps|)
  {
    RenumberKeeps(cells, now, stamps, renewed, order);
    LiveKeysCount(cells, stamps, order, high);
    NumberedRises(LiveKeys(stamps, order), 1);
    NumberedTicketed(now, renewed, LiveKeys(stamps, order));
  }

  lemma {:induction false} NumberedTicketed(cells: Memory.Cells, stamps: map<Key, nat>, keys: seq<Key>)
    requires StampsOf(cells, stamps) && Renumbered(stamps, keys)
    ensures Memory.Ticketed(cells, Numbered(keys, 1))
  {
    forall k | k in cells
      ensures (k, cells[k].stamp) in Numbered(keys, 1)
    {
      var i :| 0 <= i < |keys| && keys[i] == k;
      assert Numbered(keys, 1)[i] == (k, cells[k].stamp);
    }
  }

  lemma {:induction false} NumberedItems(cells: Memory.Cells, stamps: map<Key, nat>, keys: seq<Key>)
    requires StampsOf(cells, stamps) && Renumbered(stamps, keys)
    ensures Memory.Live(cells, Numbered(keys, 1)) == ItemsFor(cells, keys)
  {
    forall i | 0 <= i < |keys|
      ensures keys[i] in cells && cells[keys[i]].stamp == 1 + i
    {
      assert keys[i] in keys;
    }
    NumberedLive(cells, keys, 1);
  }

  /** Renumbering keeps the queue: the same items are live, in the same order. */
  lemma {:induction false} RenumberKeeps(cells: Memory.Cells, now: Memory.Cells, stamps: map<Key, nat>, renewed: map<Key, nat>,
                                         order: seq<Ticket>)
    requires StampsOf(cells, stamps) && StampsOf(now, renewed) && SameEntries(cells, now)
    requires Renumbered(renewed, LiveKeys(stamps, order))
    ensures Memory.Live(now, Numbered(LiveKeys(stamps, order), 1)) == Memory.Live(cells, order)
  {
    LiveIsItems(cells, stamps, order);
    NumberedItems(now, renewed, LiveKeys(stamps, order));
    SameItems(cells, now, LiveKeys(stamps, order));
  }

  lemma {:induction false} ItemsForAll(cells: Memory.Cells, keys: seq<Key>)
    requires forall k :: k in keys ==> k in cells
    ensures |ItemsFor(cells, keys)| == |keys|
  {
    if keys != [] {
      ItemsForAll(cells, keys[1..]);
    }
  }

  // ----- tickets and cells -----

  /** A new last ticket. */
  lemma {:induction false} Pushed(cells: Memory.Cells, order: seq<Ticket>, key: Key, cell: Memory.Cell)
    requires cell.stamp > 0 && Queued(cells, order, cell.stamp - 1)
    ensures Queued(cells[key := cell], order + [(key, cell.stamp)], cell.stamp)
    ensures Memory.Live(cells[key := cell], order + [(key, cell.stamp)])
         == Without(Memory.Live(cells, order), key) + [Item(key, cell.value, cell.weight)]
  {
    Memory.LiveFresh(cells, order, 0, cell.stamp - 1, key, cell);
    Memory.AscendingPush(order, 0, cell.stamp - 1, (key, cell.stamp));
  }

  lemma {:induction false} CellsTicketed(encoding: Encoding, files: map<string, Value>, sizes: map<Key, nat>, stamps: map<Key, nat>, key: Key, stamp: nat)
    requires key in sizes && encoding.Name(key) in files
    ensures CellsOf(encoding, files, sizes, stamps[key := stamp])
         == CellsOf(encoding, files, sizes, stamps)[key := Memory.Cell(files[encoding.Name(key)], sizes[key], stamp)]
  {
  }

  /** The live tickets, as `retain` keeps them. */
  function Retained(stamps: map<Key, nat>, order: seq<Ticket>): seq<Ticket> {
    if order == [] then []
    else (if order[0].0 in stamps && stamps[order[0].0] == order[0].1 then [order[0]] else []) + Retained(stamps, order[1..])
  }

  lemma {:induction false} RetainedSwept(cells: Memory.Cells, stamps: map<Key, nat>, order: seq<Ticket>)
    requires StampsOf(cells, stamps)
    ensures Retained(stamps, order) == Memory.Swept(cells, order)
  {
    if order != [] {
      RetainedSwept(cells, stamps, order[1..]);
    }
  }

  lemma {:induction false} SweptQueued(cells: Memory.Cells, order: seq<Ticket>, high: nat)
    requires Queued(cells, order, high)
    ensures Queued(cells, Memory.Swept(cells, order), high)
    ensures Memory.Live(cells, Memory.Swept(cells, order)) == Memory.Live(cells, order)
    ensures |Memory.Swept(cells, order)| == |cells|
  {
    Memory.SweptLive(cells, order, 0, high);
    Memory.LiveSize(cells, order, high);
    forall k | k in cells ensures (k, cells[k].stamp) in Memory.Swept(cells, order) {
      Memory.SweptTickets(cells, order, (k, cells[k].stamp));
    }
  }

  lemma {:induction false} CellsFewer(cells: Memory.Cells, stamps: map<Key, nat>, sizes: map<Key, nat>)
    requires StampsOf(cells, stamps) && stamps.Keys <= sizes.Keys
    ensures |cells| <= |sizes|
  {
    assert |cells.Keys| == |cells| && |sizes.Keys| == |sizes|;
    SubsetSize(cells.Keys, sizes.Keys);
  }

  lemma {:induction false} SubsetSize(a: set<Key>, b: set<Key>)
    requires a <= b
    ensures |a| <= |b|
  {
    assert b == a + (b - a) && a !! (b - a);
  }

  // ----- accounts and files -----

  /** Sizes, mappings and files agree: every accounted key has its file, of the
      accounted length; every retained mapping shows its file; every file whose name
      decodes to a key is that key's file, and accounted; and no file has no name. */
  ghost predicate Accounted(encoding: Encoding, len: Value -> nat, files: map<string, Value>,
                            maps: map<Key, Value>, sizes: map<Key, nat>)
  {
    && encoding.Faithful() && "" !in files
    && maps.Keys <= sizes.Keys
    && (forall k :: k in sizes ==> encoding.Name(k) in files && sizes[k] == len(files[encoding.Name(k)]))
    && (forall k :: k in maps ==> encoding.Name(k) in files && maps[k] == files[encoding.Name(k)])
    && (forall n {:trigger OwnName(encoding, sizes, n)} :: n in files ==> OwnName(encoding, sizes, n))
  }

  predicate OwnName(encoding: Encoding, sizes: map<Key, nat>, name: string) {
    encoding.KeyOf(name).Some? ==> encoding.KeyOf(name).value in sizes && encoding.Name(encoding.KeyOf(name).value) == name
  }

  lemma {:induction false} NamesDiffer(encoding: Encoding, a: Key, b: Key)
    requires encoding.Faithful() && encoding.Name(a) == encoding.Name(b)
    ensures a == b
  {
    Injective(encoding.utf8(a), encoding.utf8(b));
    assert encoding.text(encoding.utf8(a)) == Some(a) && encoding.text(encoding.utf8(b)) == Some(b);
  }

  /** The directory after `value` was written to `name`'s temporary file and renamed. */
  function Renamed(files: map<string, Value>, name: string, value: Value): map<string, Value> {
    (files - {name + ".tmp"})[name := value]
  }

  /** A write changes the one key's file; the temporary file never hides another's. */
  lemma {:induction false} RenamedAt(encoding: Encoding, files: map<string, Value>, key: Key, value: Value, k: Key)
    requires encoding.Faithful()
    ensures Lookup(Renamed(files, encoding.Name(key), value), encoding.Name(k))
         == if k == key then Some(value) else Lookup(files, encoding.Name(k))
  {
    TemporaryIsNoEntry(encoding, key);
    NameRoundTrip(encoding, k);
    NameRoundTrip(encoding, key);
  }

  lemma {:induction false} RenamedOwn(encoding: Encoding, files: map<string, Value>, sizes: map<Key, nat>, key: Key, value: Value, size: nat, n: string)
    requires encoding.Faithful() && n in Renamed(files, encoding.Name(key), value)
    requires n in files ==> OwnName(encoding, sizes, n)
    ensures OwnName(encoding, sizes[key := size], n)
  {
    NameRoundTrip(encoding, key);
  }

  lemma {:induction false} AccountedWrite(encoding: Encoding, len: Value -> nat, files: map<string, Value>,
                                          maps: map<Key, Value>, sizes: map<Key, nat>, key: Key, value: Value)
    requires Accounted(encoding, len, files, maps, sizes) && encoding.utf8(key) != []
    ensures Accounted(encoding, len, Renamed(files, encoding.Name(key), value), maps[key := value], sizes[key := len(value)])
  {
    var after := Renamed(files, encoding.Name(key), value);
    forall k | k in sizes[key := len(value)]
      ensures encoding.Name(k) in after && after[encoding.Name(k)] == if k == key then value else files[encoding.Name(k)]
    {
      RenamedAt(encoding, files, key, value, k);
    }
    forall n | n in after
      ensures OwnName(encoding, sizes[key := len(value)], n)
    {
      RenamedOwn(encoding, files, sizes, key, value, len(value), n);
    }
  }

  lemma {:induction false} AccountedRemove(encoding: Encoding, len: Value -> nat, files: map<string, Value>,
                                           maps: map<Key, Value>, sizes: map<Key, nat>, key: Key)
    requires Accounted(encoding, len, files, maps, sizes)
    ensures Accounted(encoding, len, files - {encoding.Name(key)}, maps - {key}, sizes - {key})
  {
    forall k | k in sizes && k != key
      ensures encoding.Name(k) != encoding.Name(key)
    {
      if encoding.Name(k) == encoding.Name(key) {
        NamesDiffer(encoding, k, key);
      }
    }
    var after := files - {encoding.Name(key)};
    forall n | n in after
      ensures OwnName(encoding, sizes - {key}, n)
    {
      assert OwnName(encoding, sizes, n);
    }
  }

  /** The cells without one key. */
  lemma {:induction false} CellsRemove(encoding: Encoding, files: map<string, Value>, sizes: map<Key, nat>, stamps: map<Key, nat>, key: Key)
    requires encoding.Faithful()
    ensures CellsOf(encoding, files - {encoding.Name(key)}, sizes - {key}, stamps - {key})
         == CellsOf(encoding, files, sizes, stamps) - {key}
  {
    forall k | k in stamps && k != key
      ensures encoding.Name(k) != encoding.Name(key)
    {
      if encoding.Name(k) == encoding.Name(key) {
        NamesDiffer(encoding, k, key);
      }
    }
  }

  /** The cells after a key's file and size were rewritten, stamps untouched. */
  lemma {:induction false} CellsWrite(encoding: Encoding, files: map<string, Value>,
                                      sizes: map<Key, nat>, stamps: map<Key, nat>, key: Key, value: Value, size: nat)
    requires encoding.Faithful() && BackedBy(encoding, files, sizes, stamps)
    ensures
      var cells := CellsOf(encoding, files, sizes, stamps);
      CellsOf(encoding, Renamed(files, encoding.Name(key), value), sizes[key := size], stamps)
      == if key in stamps then cells[key := Memory.Cell(value, size, stamps[key])] else cells
  {
    var after := Renamed(files, encoding.Name(key), value);
    forall k | k in stamps
      ensures encoding.Name(k) in after && after[encoding.Name(k)] == if k == key then value else files[encoding.Name(k)]
    {
      RenamedAt(encoding, files, key, value, k);
    }
  }

  lemma {:induction false} QueuedRewrite(cells: Memory.Cells, order: seq<Ticket>, high: nat, key: Key, cell: Memory.Cell)
    requires Queued(cells, order, high) && key in cells && cell.stamp == cells[key].stamp
    ensures Queued(cells[key := cell], order, high)
    ensures Memory.Live(cells[key := cell], order) == Replaced(Memory.Live(cells, order), Item(key, cell.value, cell.weight))
  {
    Memory.LiveReplaced(cells, order, key, cell);
  }

  lemma {:induction false} WithoutReplaced(items: seq<Item>, item: Item)
    ensures Without(Replaced(items, item), item.key) == Without(items, item.key)
  {
    if items != [] {
      WithoutReplaced(items[1..], item);
    }
  }

  /** Filing an entry: rewritten in place first, then ticketed when it is new or the
      order is by use. */
  lemma {:induction false} PlacedInTwo(items: seq<Item>, middle: seq<Item>, item: Item, e: Eviction)
    requires middle == if Has(items, item.key) then Replaced(items, item) else items
    ensures Has(items, item.key) && e.Fifo? ==> Placed(items, item, e) == middle
    ensures !Has(items, item.key) || e.Lru? ==> Placed(items, item, e) == Without(middle, item.key) + [item]
  {
    if Has(items, item.key) {
      WithoutReplaced(items, item);
    } else {
      WithoutAbsent(items, item.key);
    }
  }

  // ----- the books as a whole -----

  /** How a tier was opened; `width` is how many stamps its counter has (2^64 in the source). */
  datatype Rules = Rules(encoding: Encoding, len: Value -> nat, budget: Option<nat>, eviction: Eviction, width: nat)

  datatype Books = Books(
    files: map<string, Value>,
    maps: map<Key, Value>,
    sizes: map<Key, nat>,
    stamps: map<Key, nat>,
    order: seq<Ticket>,
    total: nat,
    nextStamp: nat)

  ghost function Cells(c: Rules, b: Books): Memory.Cells {
    CellsOf(c.encoding, b.files, b.sizes, b.stamps)
  }

  /** The contents in eviction order. */
  ghost function Items(c: Rules, b: Books): seq<Item> {
    Memory.Live(Cells(c, b), b.order)
  }

  ghost predicate Backed(c: Rules, b: Books) {
    BackedBy(c.encoding, b.files, b.sizes, b.stamps)
  }

  ghost predicate TicketsOk(c: Rules, b: Books) {
    Backed(c, b) && b.nextStamp < c.width && Queued(Cells(c, b), b.order, b.nextStamp)
  }

  ghost predicate FilesOk(c: Rules, b: Books) {
    Accounted(c.encoding, c.len, b.files, b.maps, b.sizes)
  }

  ghost predicate Good(c: Rules, b: Books) {
    FilesOk(c, b) && b.stamps.Keys == b.sizes.Keys && TicketsOk(c, b) && b.total == Weight(Items(c, b))
  }

  /** The invariant, spelled out for the list. */
  lemma {:induction false} Facts(c: Rules, b: Books)
    requires Good(c, b)
    ensures Distinct(Items(c, b))
    ensures forall k :: Has(Items(c, b), k) <==> k in b.sizes
    ensures forall k :: k in b.sizes ==> At(Items(c, b), k) == Item(k, b.files[c.encoding.Name(k)], b.sizes[k])
  {
    CellsStamped(c.encoding, b.files, b.sizes, b.stamps);
    Memory.LiveDistinct(Cells(c, b), b.order, 0, b.nextStamp);
    forall k ensures Has(Items(c, b), k) <==> k in b.sizes {
      Memory.LiveHas(Cells(c, b), b.order, k);
    }
    Memory.LiveItems(Cells(c, b), b.order);
  }

  /** The books after a file was rewritten, mapped and its size accounted. */
  function Rewritten(c: Rules, b: Books, key: Key, value: Value): Books {
    b.(files := Renamed(b.files, c.encoding.Name(key), value),
       maps := b.maps[key := value],
       sizes := b.sizes[key := c.len(value)],
       total := Memory.SaturatingSub(b.total, if key in b.sizes then b.sizes[key] else 0))
  }

  lemma {:induction false} RewrittenQueue(c: Rules, b: Books, key: Key, value: Value)
    requires Good(c, b)
    ensures TicketsOk(c, Rewritten(c, b, key, value))
    ensures Items(c, Rewritten(c, b, key, value))
         == if key in b.sizes then Replaced(Items(c, b), Item(key, value, c.len(value))) else Items(c, b)
  {
    CellsStamped(c.encoding, b.files, b.sizes, b.stamps);
    CellsWrite(c.encoding, b.files, b.sizes, b.stamps, key, value, c.len(value));
    if key in b.stamps {
      QueuedRewrite(Cells(c, b), b.order, b.nextStamp, key, Memory.Cell(value, c.len(value), b.stamps[key]));
    }
    forall k | k in b.stamps
      ensures c.encoding.Name(k) in Rewritten(c, b, key, value).files
    {
      RenamedAt(c.encoding, b.files, key, value, k);
    }
  }

  lemma {:induction false} RewrittenFiles(c: Rules, b: Books, key: Key, value: Value)
    requires Good(c, b) && c.encoding.utf8(key) != []
    ensures FilesOk(c, Rewritten(c, b, key, value))
    ensures Rewritten(c, b, key, value).sizes.Keys == b.stamps.Keys + {key}
    ensures |b.stamps| == |b.sizes|
  {
    assert |b.stamps.Keys| == |b.stamps| && |b.sizes.Keys| == |b.sizes|;
    AccountedWrite(c.encoding, c.len, b.files, b.maps, b.sizes, key, value);
  }

  /** Setting the total right completes the books. */
  lemma {:induction false} TotalSet(c: Rules, b: Books, total: nat)
    requires FilesOk(c, b) && TicketsOk(c, b) && b.stamps.Keys == b.sizes.Keys && total == Weight(Items(c, b))
    ensures Good(c, b.(total := total)) && Items(c, b.(total := total)) == Items(c, b)
  {
  }

  /** The books after the oldest entry's ticket was popped, the queue now `order`, and
      the entry was taken out of the accounts and the directory. */
  function Dropped(c: Rules, b: Books, key: Key, order: seq<Ticket>): Books {
    b.(files := b.files - {c.encoding.Name(key)},
       maps := b.maps - {key},
       sizes := b.sizes - {key},
       stamps := b.stamps - {key},
       order := order,
       total := if key in b.sizes then Memory.SaturatingSub(b.total, b.sizes[key]) else b.total)
  }

  lemma {:induction false} DroppedAccounts(c: Rules, b: Books, key: Key, order: seq<Ticket>)
    requires Good(c, b)
    ensures FilesOk(c, Dropped(c, b, key, order)) && Backed(c, Dropped(c, b, key, order))
    ensures Cells(c, Dropped(c, b, key, order)) == Cells(c, b) - {key}
  {
    AccountedRemove(c.encoding, c.len, b.files, b.maps, b.sizes, key);
    CellsRemove(c.encoding, b.files, b.sizes, b.stamps, key);
    assert (b.stamps - {key}).Keys == (b.sizes - {key}).Keys;
  }

  lemma {:induction false} DroppedGood(c: Rules, b: Books, key: Key, order: seq<Ticket>)
    requires Good(c, b) && key in b.sizes && Queued(Cells(c, b) - {key}, order, b.nextStamp)
    requires Weight(Memory.Live(Cells(c, b) - {key}, order)) + b.sizes[key] == Weight(Items(c, b))
    ensures Good(c, Dropped(c, b, key, order))
    ensures Items(c, Dropped(c, b, key, order)) == Memory.Live(Cells(c, b) - {key}, order)
    ensures |Dropped(c, b, key, order).sizes| < |b.sizes|
  {
    DroppedTickets(c, b, key, order);
    DroppedKeys(c, b, key, order);
  }

  lemma {:induction false} DroppedTickets(c: Rules, b: Books, key: Key, order: seq<Ticket>)
    requires Good(c, b) && Queued(Cells(c, b) - {key}, order, b.nextStamp)
    ensures FilesOk(c, Dropped(c, b, key, order)) && TicketsOk(c, Dropped(c, b, key, order))
    ensures Items(c, Dropped(c, b, key, order)) == Memory.Live(Cells(c, b) - {key}, order)
  {
    DroppedAccounts(c, b, key, order);
  }

  lemma {:induction false} DroppedKeys(c: Rules, b: Books, key: Key, order: seq<Ticket>)
    requires key in b.sizes && b.stamps.Keys == b.sizes.Keys
    ensures |Dropped(c, b, key, order).sizes| < |b.sizes|
    ensures Dropped(c, b, key, order).stamps.Keys == Dropped(c, b, key, order).sizes.Keys
  {
    var d := Dropped(c, b, key, order);
    assert d.sizes.Keys == b.sizes.Keys - {key} && |d.sizes.Keys| == |d.sizes| && |b.sizes.Keys| == |b.sizes|;
  }

  /** What a rebuild makes of the books, once the live keys have the stamps from 1. */
  lemma {:induction false} RebuiltBooks(c: Rules, b: Books, now: Books, high: nat)
    requires Backed(c, b) && Queued(Cells(c, b), b.order, high) && |b.stamps| < c.width
    requires now.files == b.files && now.sizes == b.sizes
    requires Renumbered(now.stamps, LiveKeys(b.stamps, b.order))
    requires now.order == Numbered(LiveKeys(b.stamps, b.order), 1) && now.nextStamp == |now.stamps|
    ensures TicketsOk(c, now) && Items(c, now) == Items(c, b)
    ensures now.stamps.Keys == b.stamps.Keys && |now.stamps| == |b.stamps|
  {
    CellsStamped(c.encoding, b.files, b.sizes, b.stamps);
    LiveKeysAll(Cells(c, b), b.stamps, b.order);
    assert now.stamps.Keys == b.stamps.Keys;
    assert |now.stamps.Keys| == |now.stamps| && |b.stamps.Keys| == |b.stamps|;
    CellsStamped(c.encoding, b.files, b.sizes, now.stamps);
    RestampedSame(c.encoding, b.files, b.sizes, b.stamps, now.stamps);
    Rebuilt(Cells(c, b), Cells(c, now), b.stamps, now.stamps, b.order, high);
  }

  /** With nothing live, the queue can be dropped. */
  lemma {:induction false} EmptyQueue(c: Rules, b: Books)
    requires Good(c, b) && Items(c, b) == []
    ensures Good(c, b.(order := [])) && Items(c, b.(order := [])) == []
  {
    Facts(c, b);
    Memory.LiveSize(Cells(c, b), b.order, b.nextStamp);
  }

  /** The first item names its own file and size. */
  lemma {:induction false} FirstItem(c: Rules, b: Books)
    requires Good(c, b) && Items(c, b) != []
    ensures
      var item := Items(c, b)[0];
      && item.key in b.sizes && Lookup(b.files, c.encoding.Name(item.key)) == Some(item.value)
      && b.sizes[item.key] == item.weight && (item.key in b.maps ==> b.maps[item.key] == item.value)
      && Weight(Items(c, b)) == item.weight + Weight(Items(c, b)[1..])
  {
    Facts(c, b);
    var item := Items(c, b)[0];
    assert Has(Items(c, b), item.key);
    assert At(Items(c, b), item.key) == item;
  }

  /** `t` is `n` with `key`'s place in the queue settled: a fresh ticket when it has none
      or the order is by use. */
  ghost predicate Settled(c: Rules, n: Books, t: Books, key: Key) {
    && t == n.(stamps := t.stamps, order := t.order, nextStamp := t.nextStamp)
    && FilesOk(c, t) && TicketsOk(c, t) && t.stamps.Keys == t.sizes.Keys
    && key in n.sizes && c.encoding.Name(key) in n.files
    && Items(c, t) ==
         if key !in n.stamps || c.eviction.Lru?
         then Without(Items(c, n), key) + [Item(key, n.files[c.encoding.Name(key)], n.sizes[key])] else Items(c, n)
  }

  /** A rewritten and settled entry, once its length is added back, is a placed one. */
  lemma {:induction false} PlacedGood(c: Rules, b: Books, t: Books, key: Key, value: Value, done: Books)
    requires Good(c, b) && c.encoding.utf8(key) != [] && |b.sizes| + 1 < c.width
    requires Settled(c, Rewritten(c, b, key, value), t, key)
    requires b.total + c.len(value) <= Memory.MAX_USIZE
    requires done == t.(total := Memory.SaturatingAdd(t.total, c.len(value)))
    ensures Good(c, done) && Items(c, done) == Placed(Items(c, b), Item(key, value, c.len(value)), c.eviction)
    ensures |done.sizes| <= |b.sizes| + 1
  {
    SettledPlaced(c, b, t, key, value);
    PlacedTotal(c, b, key, value);
    TotalSet(c, t, Memory.SaturatingAdd(t.total, c.len(value)));
  }

  lemma {:induction false} SettledPlaced(c: Rules, b: Books, t: Books, key: Key, value: Value)
    requires Good(c, b) && c.encoding.utf8(key) != [] && |b.sizes| + 1 < c.width
    requires Settled(c, Rewritten(c, b, key, value), t, key)
    ensures Items(c, t) == Placed(Items(c, b), Item(key, value, c.len(value)), c.eviction)
    ensures |t.sizes| <= |b.sizes| + 1
  {
    RewrittenReady(c, b, key, value);
  }

  lemma {:induction false} PlacedTotal(c: Rules, b: Books, key: Key, value: Value)
    requires Good(c, b) && b.total + c.len(value) <= Memory.MAX_USIZE
    ensures Weight(Placed(Items(c, b), Item(key, value, c.len(value)), c.eviction))
         == Memory.SaturatingAdd(Rewritten(c, b, key, value).total, c.len(value))
  {
    Facts(c, b);
    Memory.WeightPlaced(Items(c, b), Item(key, value, c.len(value)), c.eviction);
    Memory.WeightWithout(Items(c, b), key);
  }

  /** A rewritten entry only lacks its ticket. */
  lemma {:induction false} RewrittenUntidy(c: Rules, b: Books, key: Key, value: Value)
    requires Good(c, b) && c.encoding.utf8(key) != [] && |b.sizes| + 1 < c.width
    ensures Untidy(c, Rewritten(c, b, key, value), key) && (key in b.stamps <==> key in b.sizes)
  {
    RewrittenReady(c, b, key, value);
  }

  /** `t` is `b` with a stamp ready that is above all stamps in the queue. */
  ghost predicate StampReady(c: Rules, b: Books, t: Books) {
    && t == b.(stamps := t.stamps, order := t.order, nextStamp := t.nextStamp)
    && Backed(c, t) && Items(c, t) == Items(c, b) && t.stamps.Keys == b.stamps.Keys
    && 0 < t.nextStamp < c.width && Queued(Cells(c, t), t.order, t.nextStamp - 1)
  }

  lemma {:induction false} CountedOn(c: Rules, b: Books)
    requires TicketsOk(c, b) && b.nextStamp + 1 < c.width
    ensures StampReady(c, b, b.(nextStamp := b.nextStamp + 1))
  {
    assert Cells(c, b.(nextStamp := b.nextStamp + 1)) == Cells(c, b);
  }

  /** What the counter showed before a wrap does not matter. */
  lemma {:induction false} WrappedReady(c: Rules, b: Books, t: Books, next: nat)
    requires StampReady(c, b.(nextStamp := next), t)
    ensures StampReady(c, b, t)
  {
    assert Items(c, b.(nextStamp := next)) == Items(c, b);
  }

  /** `t` is `b` with a fresh last ticket for `key`. */
  ghost predicate TicketAdded(c: Rules, b: Books, t: Books, key: Key) {
    && t == b.(stamps := t.stamps, order := t.order, nextStamp := t.nextStamp)
    && TicketsOk(c, t) && t.stamps.Keys == b.stamps.Keys + {key}
    && key in b.sizes && c.encoding.Name(key) in b.files
    && Items(c, t) == Without(Items(c, b), key) + [Item(key, b.files[c.encoding.Name(key)], b.sizes[key])]
  }

  /** Filing a ready stamp under `key`. */
  lemma {:induction false} TicketFiled(c: Rules, b: Books, r: Books, key: Key, t: Books)
    requires StampReady(c, b, r) && key in b.sizes && c.encoding.Name(key) in b.files
    requires t == r.(stamps := r.stamps[key := r.nextStamp], order := r.order + [(key, r.nextStamp)])
    ensures TicketAdded(c, b, t, key)
  {
    Pushed(Cells(c, r), r.order, key, Memory.Cell(r.files[c.encoding.Name(key)], r.sizes[key], r.nextStamp));
    CellsTicketed(c.encoding, r.files, r.sizes, r.stamps, key, r.nextStamp);
  }

  lemma {:induction false} SweptAdded(c: Rules, b: Books, t: Books, key: Key, swept: Books)
    requires TicketAdded(c, b, t, key)
    requires swept == t.(order := swept.order) && TicketsOk(c, swept) && Items(c, swept) == Items(c, t)
    ensures TicketAdded(c, b, swept, key)
  {
  }

  /** Books with one key's file and size in place, its ticket still to come. */
  ghost predicate Untidy(c: Rules, b: Books, key: Key) {
    && FilesOk(c, b) && TicketsOk(c, b) && |b.stamps| + 1 < c.width
    && b.sizes.Keys == b.stamps.Keys + {key} && c.encoding.Name(key) in b.files
  }

  /** A rewritten entry is ready for its ticket, and with it is a placed one. */
  lemma {:induction false} RewrittenReady(c: Rules, b: Books, key: Key, value: Value)
    requires Good(c, b) && c.encoding.utf8(key) != [] && |b.sizes| + 1 < c.width
    ensures
      var (now, item) := (Rewritten(c, b, key, value), Item(key, value, c.len(value)));
      && Untidy(c, now, key) && |now.sizes| <= |b.sizes| + 1 && (key in now.stamps <==> key in b.sizes)
      && Lookup(now.files, c.encoding.Name(key)) == Some(value)
      && Placed(Items(c, b), item, c.eviction) ==
           if key !in b.sizes || c.eviction.Lru? then Without(Items(c, now), key) + [item] else Items(c, now)
  {
    var now := Rewritten(c, b, key, value);
    Facts(c, b);
    RewrittenQueue(c, b, key, value);
    RewrittenFiles(c, b, key, value);
    PlacedInTwo(Items(c, b), Items(c, now), Item(key, value, c.len(value)), c.eviction);
    assert |now.sizes.Keys| == |now.sizes| && |b.sizes.Keys| == |b.sizes| && now.sizes.Keys == b.sizes.Keys + {key};
  }

  /** A key is held exactly when its file exists, and holds the file's contents; a
      retained mapping shows the same. */
  lemma {:induction false} FileIsHeld(c: Rules, b: Books, key: Key)
    requires Good(c, b)
    ensures Lookup(Held(Items(c, b)), key) == Lookup(b.files, c.encoding.Name(key))
    ensures key in b.maps ==> Lookup(Held(Items(c, b)), key) == Some(b.maps[key])
    ensures c.encoding.Name(key) in b.files <==> key in b.sizes
  {
    Facts(c, b);
    HeldTouched(Items(c, b), key, Fifo);
    NameRoundTrip(c.encoding, key);
    if c.encoding.Name(key) in b.files {
      assert OwnName(c.encoding, b.sizes, c.encoding.Name(key));
    }
  }

  /** The empty key, whose path is the directory itself, is never held. */
  lemma {:induction false} EmptyKeyAbsent(c: Rules, b: Books, key: Key)
    requires Good(c, b)
    ensures c.encoding.Name(key) == "" <==> c.encoding.utf8(key) == []
    ensures c.encoding.utf8(key) == [] ==> key !in b.sizes && key !in b.maps && key !in Held(Items(c, b))
    ensures c.encoding.utf8(key) == [] ==> Without(Items(c, b), key) == Items(c, b)
  {
    FileIsHeld(c, b, key);
    Facts(c, b);
    if c.encoding.utf8(key) == [] {
      WithoutAbsent(Items(c, b), key);
    }
  }

  lemma {:induction false} TouchedWeight(items: seq<Item>, key: Key)
    requires Distinct(items) && Has(items, key)
    ensures Weight(Touched(items, key, Lru)) == Weight(items)
  {
    Memory.WeightWithout(items, key);
    Memory.WeightConcat(Without(items, key), [At(items, key)]);
    assert [At(items, key)][1..] == [];
  }

  lemma {:induction false} TouchReady(c: Rules, b: Books, key: Key)
    requires Good(c, b)
    ensures |b.stamps| == |b.sizes| && (key in b.sizes <==> Has(Items(c, b), key))
    ensures key in b.sizes ==> c.encoding.Name(key) in b.files
  {
    Facts(c, b);
    assert |b.stamps.Keys| == |b.stamps| && |b.sizes.Keys| == |b.sizes|;
  }

  lemma {:induction false} TouchedGood(c: Rules, b: Books, key: Key, t: Books)
    requires Good(c, b) && TicketAdded(c, b, t, key)
    ensures Good(c, t) && Items(c, t) == Touched(Items(c, b), key, Lru)
  {
    Facts(c, b);
    TouchedWeight(Items(c, b), key);
    assert b.stamps.Keys + {key} == b.stamps.Keys;
  }

  /** Retaining a mapping of an accounted file. */
  lemma {:induction false} Mapped(c: Rules, b: Books, key: Key)
    requires Good(c, b) && key in b.sizes
    ensures c.encoding.Name(key) in b.files
    ensures
      var now := b.(maps := b.maps[key := b.files[c.encoding.Name(key)]]);
      Good(c, now) && Items(c, now) == Items(c, b)
  {
    var now := b.(maps := b.maps[key := b.files[c.encoding.Name(key)]]);
    assert now.maps.Keys <= b.sizes.Keys;
    forall n | n in b.files
      ensures OwnName(c.encoding, b.sizes, n)
    {
    }
    assert FilesOk(c, now);
  }

  /** The books after a key was taken out of the accounts, its file still there. */
  function Unaccounted(c: Rules, b: Books, key: Key): Books {
    b.(maps := b.maps - {key},
       sizes := b.sizes - {key},
       stamps := b.stamps - {key},
       total := Memory.SaturatingSub(b.total, if key in b.sizes then b.sizes[key] else 0))
  }

  lemma {:induction false} QueuedRemove(cells: Memory.Cells, order: seq<Ticket>, high: nat, key: Key)
    requires Queued(cells, order, high)
    ensures Queued(cells - {key}, order, high)
    ensures Memory.Live(cells - {key}, order) == Without(Memory.Live(cells, order), key)
  {
    Memory.LiveRemoved(cells, order, key);
  }

  lemma {:induction false} UnaccountedTickets(c: Rules, b: Books, key: Key)
    requires Good(c, b)
    ensures Cells(c, Unaccounted(c, b, key)) == Cells(c, b) - {key}
    ensures TicketsOk(c, Unaccounted(c, b, key)) && Unaccounted(c, b, key).stamps.Keys <= Unaccounted(c, b, key).sizes.Keys
    ensures Items(c, Unaccounted(c, b, key)) == Without(Items(c, b), key)
  {
    var u := Unaccounted(c, b, key);
    assert Cells(c, u) == Cells(c, b) - {key};
    QueuedRemove(Cells(c, b), b.order, b.nextStamp, key);
  }

  lemma {:induction false} DeletedGood(c: Rules, b: Books, key: Key, u: Books)
    requires Good(c, b) && u == Unaccounted(c, b, key).(order := u.order)
    requires TicketsOk(c, u) && Items(c, u) == Without(Items(c, b), key)
    ensures Good(c, Dropped(c, b, key, u.order))
    ensures Items(c, Dropped(c, b, key, u.order)) == Without(Items(c, b), key)
  {
    Facts(c, b);
    UnaccountedTickets(c, b, key);
    DroppedAccounts(c, b, key, u.order);
    assert Cells(c, u) == Cells(c, Unaccounted(c, b, key));
    Memory.WeightWithout(Items(c, b), key);
    var d := Dropped(c, b, key, u.order);
    assert d.stamps.Keys == d.sizes.Keys;
  }

  /** What removing a key's file answers. */
  lemma {:induction false} RemovalAnswer(c: Rules, b: Books, key: Key)
    requires Good(c, b)
    ensures (if c.encoding.Name(key) == "" then Err else Ok(c.encoding.Name(key) in b.files))
         == (if c.encoding.utf8(key) == [] then Err else Ok(key in Held(Items(c, b))))
  {
    EmptyKeyAbsent(c, b, key);
    FileIsHeld(c, b, key);
  }

  lemma {:induction false} EmptyGood(c: Rules, b: Books, e: Books)
    requires Good(c, b)
    requires e == Books(map[], map[], map[], map[], [], 0, b.nextStamp)
    ensures Good(c, e) && Items(c, e) == []
  {
  }

  // ----- opening a directory -----

  /** `names` lists the directory, each file once. */
  ghost predicate Lists(files: map<string, Value>, names: seq<string>) {
    && "" !in files
    && (forall n :: n in names <==> n in files)
    && (forall i, j :: 0 <= i < j < |names| ==> names[i] != names[j])
  }

  /** Every name that decodes to a key is the one that key encodes to. */
  ghost predicate OwnNames(encoding: Encoding, files: map<string, Value>) {
    forall n :: n in files && encoding.KeyOf(n).Some? ==> encoding.Name(encoding.KeyOf(n).value) == n
  }

  /** The entries among the listed files, in listing order. */
  ghost function Scanned(c: Rules, files: map<string, Value>, names: seq<string>): seq<Item> {
    if names == [] then []
    else
      var (name, rest) := (names[|names| - 1], Scanned(c, files, names[..|names| - 1]));
      var key := c.encoding.KeyOf(name);
      if key.Some? && name in files then rest + [Item(key.value, files[name], c.len(files[name]))] else rest
  }

  /** The scan part-way: exactly the files of `done` are accounted. */
  ghost predicate Scanning(c: Rules, b: Books, files: map<string, Value>, done: seq<string>) {
    && c.encoding.Faithful() && b.files == files && b.maps == map[] && b.stamps.Keys == b.sizes.Keys
    && TicketsOk(c, b) && Items(c, b) == Scanned(c, files, done) && b.total == Weight(Items(c, b))
    && (forall k :: k in b.sizes ==> Indexed(c, files, done, b.sizes, k))
    && (forall n {:trigger n in done} :: n in done && c.encoding.KeyOf(n).Some? ==> c.encoding.KeyOf(n).value in b.sizes)
  }

  predicate Indexed(c: Rules, files: map<string, Value>, done: seq<string>, sizes: map<Key, nat>, k: Key)
    requires k in sizes
  {
    var name := c.encoding.Name(k);
    name in done && name in files && sizes[k] == c.len(files[name])
  }

  /** The books once a file's size is accounted, before its ticket. */
  function Counted(c: Rules, b: Books, name: string, key: Key): Books
    requires name in b.files
  {
    b.(total := Memory.SaturatingAdd(b.total, c.len(b.files[name])), sizes := b.sizes[key := c.len(b.files[name])])
  }

  lemma {:induction false} ScannedLighter(c: Rules, files: map<string, Value>, done: seq<string>, names: seq<string>)
    requires done <= names
    ensures Weight(Scanned(c, files, done)) <= Weight(Scanned(c, files, names))
    decreases |names|
  {
    if done != names {
      var init := names[..|names| - 1];
      assert done <= init;
      ScannedLighter(c, files, done, init);
      var name := names[|names| - 1];
      if c.encoding.KeyOf(name).Some? && name in files {
        Memory.WeightConcat(Scanned(c, files, init), [Item(c.encoding.KeyOf(name).value, files[name], c.len(files[name]))]);
      }
    }
  }

  lemma {:induction false} ScannedSnoc(c: Rules, files: map<string, Value>, done: seq<string>, name: string)
    ensures Scanned(c, files, done + [name]) ==
      var key := c.encoding.KeyOf(name);
      Scanned(c, files, done) + if key.Some? && name in files then [Item(key.value, files[name], c.len(files[name]))] else []
  {
    assert (done + [name])[..|done|] == done;
    assert Scanned(c, files, done) + [] == Scanned(c, files, done);
  }

  lemma {:induction false} ScanSkips(c: Rules, b: Books, files: map<string, Value>, done: seq<string>, name: string)
    requires Scanning(c, b, files, done) && c.encoding.KeyOf(name).None?
    ensures Scanning(c, b, files, done + [name])
  {
    ScannedSnoc(c, files, done, name);
    forall k | k in b.sizes
      ensures Indexed(c, files, done + [name], b.sizes, k)
    {
      assert Indexed(c, files, done, b.sizes, k);
    }
  }

  /** A file not scanned yet belongs to a key not accounted yet. */
  lemma {:induction false} ScanNew(c: Rules, b: Books, files: map<string, Value>, done: seq<string>, name: string, key: Key)
    requires Scanning(c, b, files, done) && name !in done && c.encoding.Name(key) == name
    ensures key !in b.sizes && !Has(Items(c, b), key)
  {
    assert key in b.sizes ==> Indexed(c, files, done, b.sizes, key);
    CellsStamped(c.encoding, b.files, b.sizes, b.stamps);
    Memory.LiveHas(Cells(c, b), b.order, key);
  }

  lemma {:induction false} FoundTickets(c: Rules, b: Books, name: string, key: Key)
    requires TicketsOk(c, b) && b.stamps.Keys == b.sizes.Keys && name in b.files && key !in b.sizes
    ensures TicketsOk(c, Counted(c, b, name, key)) && Items(c, Counted(c, b, name, key)) == Items(c, b)
  {
    assert Cells(c, Counted(c, b, name, key)) == Cells(c, b);
  }

  lemma {:induction false} ScanReady(c: Rules, b: Books, files: map<string, Value>, done: seq<string>, name: string, key: Key,
                                     names: seq<string>)
    requires Scanning(c, b, files, done) && name in files && name !in done
    requires c.encoding.KeyOf(name) == Some(key) && c.encoding.Name(key) == name
    requires done + [name] <= names && Weight(Scanned(c, files, names)) <= Memory.MAX_USIZE
    ensures
      var now := Counted(c, b, name, key);
      && TicketsOk(c, now) && Items(c, now) == Items(c, b) && now.stamps.Keys <= now.sizes.Keys
      && key in now.sizes && c.encoding.Name(key) in now.files
      && |now.stamps| == |b.sizes| && |now.sizes| == |b.sizes| + 1
      && now.total == b.total + c.len(files[name])
  {
    ScanNew(c, b, files, done, name, key);
    FoundTickets(c, b, name, key);
    var now := Counted(c, b, name, key);
    assert now.sizes.Keys == b.sizes.Keys + {key};
    assert |now.sizes.Keys| == |now.sizes| && |b.sizes.Keys| == |b.sizes| && |b.stamps.Keys| == |b.stamps|;
    ScannedSnoc(c, files, done, name);
    ScannedLighter(c, files, done + [name], names);
    Memory.WeightConcat(Scanned(c, files, done), [Item(key, files[name], c.len(files[name]))]);
    OneWeight(Item(key, files[name], c.len(files[name])));
  }

  lemma {:induction false} OneWeight(item: Item)
    ensures Weight([item]) == item.weight
  {
    assert [item][1..] == [];
  }

  lemma {:induction false} AddedItems(c: Rules, b: Books, files: map<string, Value>, done: seq<string>, name: string, key: Key, t: Books)
    requires Scanning(c, b, files, done) && name in files && name !in done
    requires c.encoding.KeyOf(name) == Some(key) && c.encoding.Name(key) == name
    requires b.total + c.len(files[name]) <= Memory.MAX_USIZE
    requires TicketAdded(c, Counted(c, b, name, key), t, key)
    ensures Items(c, t) == Scanned(c, files, done + [name]) && t.total == Weight(Items(c, t))
  {
    var item := Item(key, files[name], c.len(files[name]));
    ScanNew(c, b, files, done, name, key);
    FoundTickets(c, b, name, key);
    WithoutAbsent(Items(c, b), key);
    ScannedSnoc(c, files, done, name);
    Memory.WeightConcat(Items(c, b), [item]);
    OneWeight(item);
  }

  lemma {:induction false} ScanAdds(c: Rules, b: Books, files: map<string, Value>, done: seq<string>, name: string, key: Key, t: Books)
    requires Scanning(c, b, files, done) && name in files && name !in done
    requires c.encoding.KeyOf(name) == Some(key) && c.encoding.Name(key) == name
    requires b.total + c.len(files[name]) <= Memory.MAX_USIZE
    requires TicketAdded(c, Counted(c, b, name, key), t, key)
    ensures Scanning(c, t, files, done + [name])
  {
    AddedItems(c, b, files, done, name, key, t);
    forall k | k in t.sizes
      ensures Indexed(c, files, done + [name], t.sizes, k)
    {
      assert k in b.sizes ==> Indexed(c, files, done, b.sizes, k);
    }
    assert b.stamps.Keys + {key} == t.sizes.Keys;
  }

  lemma {:induction false} ScanStarts(c: Rules, b: Books, files: map<string, Value>)
    requires c.encoding.Faithful() && c.width > 0
    requires b == Books(files, map[], map[], map[], [], 0, 0)
    ensures Scanning(c, b, files, [])
  {
  }

  lemma {:induction false} ListsAt(files: map<string, Value>, names: seq<string>, i: nat)
    requires Lists(files, names) && i < |names|
    ensures names[i] in files && names[i] !in names[..i] && names[..i] + [names[i]] == names[..i + 1] <= names
  {
    assert names[i] in names;
  }

  lemma {:induction false} ScanGood(c: Rules, b: Books, files: map<string, Value>, names: seq<string>)
    requires Scanning(c, b, files, names) && Lists(files, names) && OwnNames(c.encoding, files)
    ensures Good(c, b)
  {
    forall k | k in b.sizes
      ensures c.encoding.Name(k) in files && b.sizes[k] == c.len(files[c.encoding.Name(k)])
    {
      assert Indexed(c, files, names, b.sizes, k);
    }
    forall n | n in files
      ensures OwnName(c.encoding, b.sizes, n)
    {
      assert n in names;
    }
  }

  // ----- reopening -----

  lemma {:induction false} SameWeight(a: seq<Item>, b: seq<Item>)
    requires Distinct(a) && Distinct(b)
    requires forall k :: Has(a, k) <==> Has(b, k)
    requires forall k :: Has(a, k) ==> At(a, k).weight == At(b, k).weight
    ensures Weight(a) == Weight(b)
  {
    if a == [] {
      if b != [] {
        HasCons(b, b[0].key);
        assert false;
      }
    } else {
      var k := a[0].key;
      HasCons(a, k);
      Memory.WeightWithout(b, k);
      DistinctWithout(b, k);
      forall x
        ensures Has(a[1..], x) <==> Has(Without(b, k), x)
        ensures Has(a[1..], x) ==> At(a[1..], x).weight == At(Without(b, k), x).weight
      {
        HasCons(a, x);
        WithoutHas(b, k, x);
        if Has(a[1..], x) {
          WithoutAt(b, k, x);
        }
      }
      SameWeight(a[1..], Without(b, k));
    }
  }

  lemma {:induction false} WithoutAt(items: seq<Item>, k: Key, x: Key)
    requires Has(items, x) && x != k
    ensures Has(Without(items, k), x) && At(Without(items, k), x) == At(items, x)
  {
    WithoutHas(items, k, x);
    HasCons(items, x);
    if items[0].key != x {
      WithoutAt(items[1..], k, x);
    }
    if items[0].key != k {
      assert ([items[0]] + Without(items[1..], k))[1..] == Without(items[1..], k);
    } else {
      assert [] + Without(items[1..], k) == Without(items[1..], k);
    }
  }

  /** Two tiers over the same directory account the same keys, sizes and total, and hold
      the same contents, whatever order their queues are in: so reopening restores them. */
  lemma {:induction false} ReopenRestores(c: Rules, b: Books, r: Books)
    requires Good(c, b) && Good(c, r) && r.files == b.files
    ensures r.sizes == b.sizes && r.total == b.total && Held(Items(c, r)) == Held(Items(c, b))
    ensures OwnNames(c.encoding, b.files) && "" !in b.files
  {
    forall k
      ensures k in r.sizes <==> k in b.sizes
      ensures Lookup(Held(Items(c, r)), k) == Lookup(Held(Items(c, b)), k)
    {
      FileIsHeld(c, b, k);
      FileIsHeld(c, r, k);
    }
    SameMap(Held(Items(c, r)), Held(Items(c, b)));
    SameSizes(c, b, r);
    Facts(c, b);
    Facts(c, r);
    SameWeight(Items(c, r), Items(c, b));
    forall n | n in b.files && c.encoding.KeyOf(n).Some?
      ensures c.encoding.Name(c.encoding.KeyOf(n).value) == n
    {
      assert OwnName(c.encoding, b.sizes, n);
    }
  }

  lemma {:induction false} SameSizes(c: Rules, b: Books, r: Books)
    requires FilesOk(c, b) && FilesOk(c, r) && r.files == b.files && r.sizes.Keys == b.sizes.Keys
    ensures r.sizes == b.sizes
  {
  }

  /** The contract a bounded put meets. */
  lemma {:induction false} PutFacts(c: Rules, b: Books, key: Key, value: Value, limits: Recency.Limits)
    requires Good(c, b)
    ensures
      var placed := Placed(Items(c, b), Item(key, value, c.len(value)), c.eviction);
      && !Over(Kept(placed, limits), limits)
      && Accepted(Held(Items(c, b)), [(key, value)], Held(Kept(placed, limits)), Evicted(placed, limits))
  {
    var item := Item(key, value, c.len(value));
    Facts(c, b);
    InsertAccepted(Items(c, b), item, limits, c.eviction);
  }

  lemma {:induction false} HeldKeys(c: Rules, b: Books)
    requires Good(c, b)
    ensures forall k :: k in b.sizes <==> Has(Items(c, b), k)
  {
    Facts(c, b);
  }

  lemma {:induction false} DropHas(items: seq<Item>, n: nat, k: Key)
    requires n <= |items|
    ensures Has(items[n..], k) ==> Has(items, k)
  {
    HasConcat(items[..n], items[n..], k);
    assert items[..n] + items[n..] == items;
  }

  lemma {:induction false} PlacedHas(items: seq<Item>, item: Item, e: Eviction, k: Key)
    ensures Has(Placed(items, item, e), k) <==> Has(items, k) || k == item.key
  {
    HasConcat(items, [item], k);
    HasConcat(Without(items, item.key), [item], k);
    HasCons([item], k);
    WithoutHas(items, item.key, k);
    ReplacedHas(items, item, k);
  }

  /** A put holds no key but the old ones and its own. */
  lemma {:induction false} PutKeys(c: Rules, b: Books, key: Key, value: Value, limits: Recency.Limits)
    requires Good(c, b)
    ensures
      var placed := Placed(Items(c, b), Item(key, value, c.len(value)), c.eviction);
      forall k :: Has(Kept(placed, limits), k) ==> k in b.sizes || k == key
  {
    var placed := Placed(Items(c, b), Item(key, value, c.len(value)), c.eviction);
    HeldKeys(c, b);
    forall k | Has(Kept(placed, limits), k)
      ensures k in b.sizes || k == key
    {
      DropHas(placed, Excess(placed, limits), k);
      PlacedHas(Items(c, b), Item(key, value, c.len(value)), c.eviction, k);
    }
  }

  lemma {:induction false} TicketSettles(c: Rules, n: Books, t: Books, key: Key)
    requires Untidy(c, n, key) && TicketAdded(c, n, t, key) && (key !in n.stamps || c.eviction.Lru?)
    ensures Settled(c, n, t, key)
  {
  }

  lemma {:induction false} SettledAlready(c: Rules, n: Books, key: Key)
    requires Untidy(c, n, key) && key in n.stamps && !c.eviction.Lru?
    ensures Settled(c, n, n, key)
  {
    assert n.stamps.Keys + {key} == n.stamps.Keys;
  }
}
