/** The on-disk LRU store: one file per entry, named by a hash of its key. */
module DiskStore {
  import opened Backend
  import opened Uses
  import B = Bytes

  type Key = string
  type Path = string
  type Payload = seq<Byte>

  /** A file carries its key, so that a filename collision can be noticed, and
      the time it was last written. */
  datatype File = File(key: Key, payload: Payload, stamp: nat)

  datatype Entry = Entry(path: Path, size: nat, recency: nat)

  const HEADER := 4
  const MAX_KEY := 4096

  function EntrySize(key: Key, payload: Payload): nat { HEADER + |key| + |payload| }

  // ---- The file -----------------------------------------------------------

  /** A key's characters are bytes. */
  predicate ByteKey(key: Key) { |key| < B.Pow256(4) && forall i :: 0 <= i < |key| ==> key[i] as int < 256 }

  function KeyBytes(key: Key): seq<Byte>
    requires ByteKey(key)
  {
    seq(|key|, i requires 0 <= i < |key| => key[i] as int as Byte)
  }

  function KeyOf(bytes: seq<Byte>): Key {
    seq(|bytes|, i requires 0 <= i < |bytes| => bytes[i] as int as char)
  }

  /** The length of the key, the key, the payload. */
  function FileBytes(key: Key, payload: Payload): seq<Byte>
    requires ByteKey(key)
  {
    B.Encode(|key|, HEADER) + KeyBytes(key) + payload
  }

  /** What a file says, if it is long enough for its header and its key. */
  function ParseFile(bytes: seq<Byte>): Option<(Key, Payload)> {
    if |bytes| < HEADER then None
    else
      var n := B.Decode(bytes[..HEADER]);
      if |bytes| < HEADER + n then None
      else Some((KeyOf(bytes[HEADER..HEADER + n]), bytes[HEADER + n..]))
  }

  /** A file gives back its key and its payload, and the size of an entry is the
      length of its file. */
  lemma FileRoundTrip(key: Key, payload: Payload)
    requires ByteKey(key)
    ensures ParseFile(FileBytes(key, payload)) == Some((key, payload))
    ensures |FileBytes(key, payload)| == EntrySize(key, payload) == 4 + |key| + |payload|
  {
    var bytes := FileBytes(key, payload);
    B.RoundTrip(|key|, HEADER);
    assert bytes[..HEADER] == B.Encode(|key|, HEADER);
    assert bytes[HEADER..HEADER + |key|] == KeyBytes(key) && bytes[HEADER + |key|..] == payload;
    assert KeyOf(KeyBytes(key)) == key;
  }

  // ---- The byte count -----------------------------------------------------

  ghost function Sum(entries: map<Key, Entry>): nat
    decreases |entries.Keys|
  {
    if entries == map[] then 0
    else
      var k :| k in entries;
      entries[k].size + Sum(entries - {k})
  }

  /** The sum may be taken in any order. */
  lemma {:induction false} SumWithout(entries: map<Key, Entry>, k: Key)
    requires k in entries
    ensures Sum(entries) == entries[k].size + Sum(entries - {k})
    decreases |entries.Keys|
  {
    var j :| j in entries && Sum(entries) == entries[j].size + Sum(entries - {j});
    if j != k {
      SumWithout(entries - {j}, k);
      SumWithout(entries - {k}, j);
      assert entries - {j} - {k} == entries - {k} - {j};
    }
  }

  lemma SumAdded(entries: map<Key, Entry>, k: Key, e: Entry)
    requires k !in entries
    ensures Sum(entries[k := e]) == e.size + Sum(entries)
  {
    SumWithout(entries[k := e], k);
    assert entries[k := e] - {k} == entries;
  }

  lemma SumTouched(entries: map<Key, Entry>, k: Key, e: Entry)
    requires k in entries && e.size == entries[k].size
    ensures Sum(entries[k := e]) == Sum(entries)
  {
    SumWithout(entries, k);
    SumWithout(entries[k := e], k);
    assert entries[k := e] - {k} == entries - {k};
  }

  // ---- Recency ------------------------------------------------------------

  /** A strict order: no two entries were used at the same time. */
  ghost predicate Strict(entries: map<Key, Entry>, next: nat) {
    && (forall k :: k in entries ==> entries[k].recency < next)
    && (forall j, k :: j in entries && k in entries && j != k ==> entries[j].recency != entries[k].recency)
  }

  ghost predicate Oldest(entries: map<Key, Entry>, k: Key) {
    k in entries && forall j :: j in entries ==> entries[k].recency <= entries[j].recency
  }

  method LeastRecent(entries: map<Key, Entry>) returns (k: Key)
    requires entries != map[]
    ensures Oldest(entries, k)
  {
    var left := entries.Keys;
    k :| k in left;
    left := left - {k};
    while left != {}
      invariant left < entries.Keys && k in entries
      invariant forall j :: j in entries && j !in left ==> entries[k].recency <= entries[j].recency
      decreases |left|
    {
      var j :| j in left;
      if entries[j].recency < entries[k].recency { k := j; }
      left := left - {j};
    }
  }

  /** Of the entries dropped, v is the newest. */
  ghost predicate NewestGone(before: map<Key, Entry>, after: map<Key, Entry>, v: Key) {
    && v in before && v !in after
    && forall j :: j in before && j !in after ==> before[j].recency <= before[v].recency
  }

  /** Only the oldest were dropped, and the last of them had to go: with it back
      the rest would be over `room`. */
  ghost predicate DroppedOldest(before: map<Key, Entry>, after: map<Key, Entry>, room: int) {
    && after.Keys <= before.Keys && (forall k :: k in after ==> after[k] == before[k])
    && (forall j, k :: j in before && j !in after && k in after ==> before[j].recency < before[k].recency)
    && (forall v :: NewestGone(before, after, v) ==> Sum(after) + before[v].size > room)
  }

  /** `after` is what is left of `before` once the fewest oldest entries that
      make room were dropped. */
  ghost predicate FewestOldest(before: map<Key, Entry>, after: map<Key, Entry>, room: int) {
    DroppedOldest(before, after, room) && (after == map[] || Sum(after) <= room)
  }

  lemma NothingDropped(entries: map<Key, Entry>, room: int)
    ensures DroppedOldest(entries, entries, room)
  {
    hide Sum;
  }

  lemma DroppedPart(before: map<Key, Entry>, after: map<Key, Entry>, room: int)
    requires DroppedOldest(before, after, room)
    ensures PartOf(after, before)
  {
    hide Sum;
  }

  lemma DropOne(before: map<Key, Entry>, held: map<Key, Entry>, next: nat, k: Key, room: int)
    requires DroppedOldest(before, held, room) && Oldest(held, k) && Strict(held, next) && Sum(held) > room
    ensures DroppedOldest(before, held - {k}, room)
  {
    hide Sum;
    SumWithout(held, k);
    var now := held - {k};
    forall v | NewestGone(before, now, v)
      ensures v == k
    {
      assert k in before && k !in now;
    }
  }

  // ---- Several puts -------------------------------------------------------

  datatype Item = Item(key: Key, payload: Payload)

  /** The entries once these were put one after the other, if nothing had to go. */
  ghost function WithItems(entries: map<Key, Entry>, name: Key -> Path, items: seq<Item>, next: nat): map<Key, Entry>
    decreases |items|
  {
    if items == [] then entries
    else
      var n := |items| - 1;
      var i := items[n];
      WithItems(entries, name, items[..n], next)[i.key := Entry(name(i.key), EntrySize(i.key, i.payload), next + n)]
  }

  /** What is left of them: with a limit, all but the fewest oldest, as if room had
      been made once for all. */
  ghost predicate Filled(base: map<Key, Entry>, entries: map<Key, Entry>, name: Key -> Path, items: seq<Item>,
                         next: nat, maxBytes: nat)
  {
    if maxBytes == 0 || items == [] then entries == WithItems(base, name, items, next)
    else FewestOldest(WithItems(base, name, items, next), entries, maxBytes)
  }

  /** A file whose name no lost entry has is as it was, these names excepted. */
  ghost predicate FilesKept(entries: map<Key, Entry>, files: map<Path, File>, entries': map<Key, Entry>,
                            files': map<Path, File>, but: set<Path>)
  {
    forall q :: q in files && q !in but && !LostAt(entries, entries', q) ==> q in files' && files'[q] == files[q]
  }

  ghost predicate LostAt(entries: map<Key, Entry>, entries': map<Key, Entry>, q: Path) {
    exists k :: k in entries && k !in entries' && entries[k].path == q
  }

  /** One successful put. */
  ghost predicate PutStep(entries: map<Key, Entry>, files: map<Path, File>, next: nat, entries': map<Key, Entry>,
                          files': map<Path, File>, next': nat, name: Key -> Path, maxBytes: nat, i: Item)
  {
    var size, p := EntrySize(i.key, i.payload), name(i.key);
    && next' == next + 1 && i.key in entries' && entries'[i.key] == Entry(p, size, next)
    && p in files' && files'[p].key == i.key
    && FilesKept(entries, files, entries', files', {p})
    && if maxBytes == 0 then entries' - {i.key} == entries - {i.key} && SameBut(files, files', p)
       else size <= maxBytes && FewestOldest(entries - {i.key}, entries' - {i.key}, maxBytes - size)
  }

  lemma PutNext(entries: map<Key, Entry>, files: map<Path, File>, next: nat, entries': map<Key, Entry>,
                files': map<Path, File>, next': nat, name: Key -> Path, maxBytes: nat, i: Item)
    requires PutStep(entries, files, next, entries', files', next', name, maxBytes, i)
    ensures next' == next + 1
  {
    hide FewestOldest;
  }

  lemma {:induction false} ItemsIn(entries: map<Key, Entry>, name: Key -> Path, items: seq<Item>, next: nat, k: Key)
    ensures k in WithItems(entries, name, items, next) <==> k in entries || KeyIn(items, k)
    decreases |items|
  {
    if items == [] {
    } else {
      var front := items[..|items| - 1];
      ItemsIn(entries, name, front, next, k);
      assert items == front + [items[|items| - 1]];
    }
  }

  lemma {:induction false} ItemsStrict(entries: map<Key, Entry>, name: Key -> Path, items: seq<Item>, next: nat)
    requires Strict(entries, next)
    ensures Strict(WithItems(entries, name, items, next), next + |items|)
    decreases |items|
  {
    if items != [] { ItemsStrict(entries, name, items[..|items| - 1], next); }
  }

  /** One put more. */
  lemma FilledMore(base: map<Key, Entry>, entries: map<Key, Entry>, name: Key -> Path, items: seq<Item>, next: nat,
                   maxBytes: nat, i: Item, files: map<Path, File>, entries': map<Key, Entry>, files': map<Path, File>)
    requires Strict(base, next) && Filled(base, entries, name, items, next, maxBytes)
    requires (maxBytes == 0 || i.key !in base) && !KeyIn(items, i.key)
    requires PutStep(entries, files, next + |items|, entries', files', next + |items| + 1, name, maxBytes, i)
    ensures Filled(base, entries', name, items + [i], next, maxBytes)
  {
    hide Sum, FewestOldest, DroppedOldest, FilesKept, SameBut, Strict, WithItems, KeyIn, EntrySize;
    var all, size := WithItems(base, name, items, next), EntrySize(i.key, i.payload);
    var e := Entry(name(i.key), size, next + |items|);
    ItemsIn(base, name, items, next, i.key);
    ItemsStrict(base, name, items, next);
    OneMoreItem(base, name, items, next, i);
    FilledPart(base, entries, name, items, next, maxBytes);
    assert (entries' - {i.key})[i.key := e] == entries' && (entries - {i.key})[i.key := e] == entries[i.key := e];
    if maxBytes != 0 {
      assert entries - {i.key} == entries;
      RoomTwice(all, entries, entries' - {i.key}, i.key, e, maxBytes);
    }
  }

  lemma OneMoreItem(base: map<Key, Entry>, name: Key -> Path, items: seq<Item>, next: nat, i: Item)
    ensures WithItems(base, name, items + [i], next) ==
      WithItems(base, name, items, next)[i.key := Entry(name(i.key), EntrySize(i.key, i.payload), next + |items|)]
  {
    assert (items + [i])[..|items|] == items;
  }

  lemma FilledPart(base: map<Key, Entry>, entries: map<Key, Entry>, name: Key -> Path, items: seq<Item>, next: nat,
                   maxBytes: nat)
    requires Filled(base, entries, name, items, next, maxBytes)
    ensures var all := WithItems(base, name, items, next); PartOf(entries, all) && DroppedOldest(all, entries, maxBytes)
  {
    hide Sum;
  }

  ghost predicate KeyIn(items: seq<Item>, k: Key) { exists i :: 0 <= i < |items| && items[i].key == k }

  ghost predicate PartOf(after: map<Key, Entry>, before: map<Key, Entry>) {
    forall k :: k in after ==> k in before && after[k] == before[k]
  }

  /** Of two rounds of dropping, which one the newest entry gone went in. */
  lemma GoneWhen(all: map<Key, Entry>, held: map<Key, Entry>, left: map<Key, Entry>, key: Key, e: Entry, v: Key)
    requires PartOf(held, all) && PartOf(left, held) && key !in all && NewestGone(all[key := e], left[key := e], v)
    requires forall j, k :: j in all && j !in held && k in held ==> all[j].recency < all[k].recency
    ensures v != key && v in all
    ensures if v in held then NewestGone(held, left, v) else NewestGone(all, held, v) && held == left
  {
    forall j | j in all && j !in left ensures all[j].recency <= all[v].recency {
      assert j in all[key := e] && all[key := e][j] == all[j];
    }
    if v !in held {
      forall k | k in held ensures k in left {
        assert all[v].recency < all[k].recency;
        assert k in all[key := e] && all[key := e][k] == all[k];
      }
    }
  }

  /** Making room for one after the other leaves what making room once would. */
  lemma RoomTwice(all: map<Key, Entry>, held: map<Key, Entry>, left: map<Key, Entry>, key: Key, e: Entry, max: nat)
    requires DroppedOldest(all, held, max) && key !in all && e.size <= max
    requires FewestOldest(held, left, max - e.size) && forall k :: k in all ==> all[k].recency < e.recency
    ensures FewestOldest(all[key := e], left[key := e], max)
  {
    var all', left' := all[key := e], left[key := e];
    assert PartOf(held, all) && PartOf(left, held);
    SumAdded(left, key, e);
    EmptySum();
    hide Sum, NewestGone;
    forall v | NewestGone(all', left', v)
      ensures Sum(left') + all'[v].size > max
    {
      GoneWhen(all, held, left, key, e, v);
    }
  }

  /** At most the age of this key's entry differs. */
  ghost predicate UsedOnly(entries: map<Key, Entry>, entries': map<Key, Entry>, key: Key) {
    && entries'.Keys == entries.Keys
    && forall k :: k in entries ==> if k == key then entries'[k] == entries[k].(recency := entries'[k].recency)
                                    else entries'[k] == entries[k]
  }

  lemma KeptRemoved(before: map<Key, Entry>, files: map<Path, File>, entries: map<Key, Entry>, files': map<Path, File>,
                    k: Key, files'': map<Path, File>, but: set<Path>)
    requires FilesKept(before, files, entries, files', but) && PartOf(entries, before)
    requires if k in entries then files'' == files' || files'' == files' - {entries[k].path} else files'' == files'
    ensures FilesKept(before, files, entries - {k}, files'', but)
  {
  }

  lemma NothingLost(entries: map<Key, Entry>, files: map<Path, File>)
    ensures FilesKept(entries, files, entries, files, {})
  {
  }

  /** First the old entry of a key goes, then others. */
  lemma KeptAfterRemove(entries: map<Key, Entry>, files: map<Path, File>, files': map<Path, File>, key: Key, p: Path,
                        entries': map<Key, Entry>, files'': map<Path, File>)
    requires key in entries ==> entries[key].path == p
    requires files' == files || files' == files - {p}
    requires FilesKept(entries - {key}, files', entries', files'', {})
    ensures FilesKept(entries, files, entries', files'', {p})
  {
  }

  /** Room was made, and the file written. */
  lemma Stepped(entries: map<Key, Entry>, files: map<Path, File>, next: nat, kept: map<Key, Entry>,
                emptied: map<Path, File>, entries': map<Key, Entry>, files': map<Path, File>, name: Key -> Path,
                maxBytes: nat, i: Item, f: File)
    requires i.key in entries ==> entries[i.key].path == name(i.key)
    requires var size, p := EntrySize(i.key, i.payload), name(i.key);
      && i.key !in kept && entries' == kept[i.key := Entry(p, size, next)]
      && f.key == i.key && files' == emptied[p := f] && FilesKept(entries, files, kept, emptied, {p})
      && if maxBytes == 0 then kept == entries - {i.key} && SameBut(files, emptied, p)
         else size <= maxBytes && FewestOldest(entries - {i.key}, kept, maxBytes - size)
    ensures PutStep(entries, files, next, entries', files', next + 1, name, maxBytes, i)
  {
    hide FewestOldest;
    assert entries' - {i.key} == kept;
  }

  lemma EmptySum()
    ensures Sum(map[]) == 0
  {
  }

  /** A later one has the same filename. */
  ghost predicate Overwritten(name: Key -> Path, items: seq<Item>, n: nat)
    requires n < |items|
  {
    exists m :: n < m < |items| && name(items[m].key) == name(items[n].key)
  }

  /** Any other one, earlier entries included, has the same filename. */
  ghost predicate Crowded(base: map<Key, Entry>, name: Key -> Path, items: seq<Item>, n: nat)
    requires n < |items|
  {
    exists k :: (k in base || KeyIn(items, k)) && k != items[n].key && name(k) == name(items[n].key)
  }

  /** Which of the items can be read. Without a limit: those not overwritten. With
      one: those still entered, if no other entry has their filename. */
  ghost predicate ServedAt(base: map<Key, Entry>, entries: map<Key, Entry>, files: map<Path, File>, name: Key -> Path,
                           items: seq<Item>, maxBytes: nat, n: nat)
    requires n < |items|
  {
    var k := items[n].key;
    if maxBytes == 0 then ReadableIn(entries, files, k) <==> !Overwritten(name, items, n)
    else k in entries && !Crowded(base, name, items, n) ==> ReadableIn(entries, files, k)
  }

  ghost predicate Served(base: map<Key, Entry>, entries: map<Key, Entry>, files: map<Path, File>, name: Key -> Path,
                         items: seq<Item>, maxBytes: nat)
  {
    forall n: nat :: n < |items| ==> ServedAt(base, entries, files, name, items, maxBytes, n)
  }

  lemma ServedMore(base: map<Key, Entry>, entries: map<Key, Entry>, files: map<Path, File>, name: Key -> Path,
                   items: seq<Item>, next: nat, maxBytes: nat, i: Item, entries': map<Key, Entry>,
                   files': map<Path, File>)
    requires Served(base, entries, files, name, items, maxBytes) && Filled(base, entries, name, items, next, maxBytes)
    requires (forall k :: k in entries ==> entries[k].path == name(k)) && !KeyIn(items, i.key)
    requires PutStep(entries, files, next + |items|, entries', files', next + |items| + 1, name, maxBytes, i)
    ensures Served(base, entries', files', name, items + [i], maxBytes)
  {
    hide Sum, PutStep, Filled, Served, ServedAt;
    forall n: nat | n < |items + [i]| ensures ServedAt(base, entries', files', name, items + [i], maxBytes, n) {
      ServedStill(base, entries, files, name, items, next, maxBytes, i, entries', files', n);
    }
    ServedSo(base, entries', files', name, items + [i], maxBytes);
  }

  lemma ServedSo(base: map<Key, Entry>, entries: map<Key, Entry>, files: map<Path, File>, name: Key -> Path,
                 items: seq<Item>, maxBytes: nat)
    requires forall n: nat :: n < |items| ==> ServedAt(base, entries, files, name, items, maxBytes, n)
    ensures Served(base, entries, files, name, items, maxBytes)
  {
    hide ServedAt;
  }

  lemma ServedStill(base: map<Key, Entry>, entries: map<Key, Entry>, files: map<Path, File>, name: Key -> Path,
                    items: seq<Item>, next: nat, maxBytes: nat, i: Item, entries': map<Key, Entry>,
                    files': map<Path, File>, n: nat)
    requires Served(base, entries, files, name, items, maxBytes) && Filled(base, entries, name, items, next, maxBytes)
    requires (forall k :: k in entries ==> entries[k].path == name(k)) && !KeyIn(items, i.key) && n < |items + [i]|
    requires PutStep(entries, files, next + |items|, entries', files', next + |items| + 1, name, maxBytes, i)
    ensures ServedAt(base, entries', files', name, items + [i], maxBytes, n)
  {
    hide Sum;
    var items' := items + [i];
    if n < |items| {
      var k := items[n].key;
      assert ServedAt(base, entries, files, name, items, maxBytes, n) && items'[n] == items[n] && k != i.key;
      if maxBytes == 0 {
        StillServed(entries, files, entries', files', name, i.key, k);
        assert Overwritten(name, items', n) <==> Overwritten(name, items, n) || name(i.key) == name(k) by {
          assert items'[|items|] == i;
          if Overwritten(name, items, n) {
            var m :| n < m < |items| && name(items[m].key) == name(items[n].key);
            assert items'[m] == items[m];
          }
        }
      } else if k in entries' && !Crowded(base, name, items', n) {
        StillUncrowded(base, entries, name, items, next, maxBytes, i, entries', n);
      }
    }
  }

  lemma StillServed(entries: map<Key, Entry>, files: map<Path, File>, entries': map<Key, Entry>,
                    files': map<Path, File>, name: Key -> Path, key: Key, k: Key)
    requires entries' - {key} == entries - {key} && SameBut(files, files', name(key)) && k != key
    requires name(key) in files' && files'[name(key)].key == key
    requires forall j :: j in entries ==> entries[j].path == name(j)
    ensures ReadableIn(entries', files', k) <==> ReadableIn(entries, files, k) && name(k) != name(key)
  {
    assert k in entries' <==> k in entries' - {key};
    assert k in entries <==> k in entries - {key};
    assert k in entries ==> (entries - {key})[k] == entries[k] == (entries' - {key})[k] == entries'[k];
  }

  lemma StillUncrowded(base: map<Key, Entry>, entries: map<Key, Entry>, name: Key -> Path, items: seq<Item>, next: nat,
                       maxBytes: nat, i: Item, entries': map<Key, Entry>, n: nat)
    requires Filled(base, entries, name, items, next, maxBytes) && n < |items|
    requires forall k :: k in entries ==> entries[k].path == name(k)
    requires PartOf(entries' - {i.key}, entries - {i.key}) && items[n].key in entries' && items[n].key != i.key
    requires !Crowded(base, name, items + [i], n)
    ensures !Crowded(base, name, items, n) && name(items[n].key) != name(i.key)
    ensures items[n].key in entries && entries'[items[n].key] == entries[items[n].key]
    ensures !LostAt(entries, entries', name(items[n].key))
  {
    var items' := items + [i];
    FilledPart(base, entries, name, items, next, maxBytes);
    hide Filled;
    forall k ensures KeyIn(items', k) <==> KeyIn(items, k) || k == i.key
      ensures k in entries ==> k in base || KeyIn(items, k)
    {
      ItemsIn(base, name, items, next, k);
      assert items'[|items|] == i;
      if KeyIn(items, k) {
        var m :| 0 <= m < |items| && items[m].key == k;
        assert items'[m] == items[m];
      }
    }
    assert KeyIn(items', i.key) && items'[n] == items[n];
    assert items[n].key in entries' - {i.key};
  }

  /** From the entries `base` on, just these items were put, one after the other. */
  ghost predicate PutJust(base: map<Key, Entry>, items: seq<Item>, entries: map<Key, Entry>, files: map<Path, File>,
                          next: int, name: Key -> Path, maxBytes: nat)
  {
    var first := next - |items|;
    && first >= 0 && Strict(base, first)
    && Filled(base, entries, name, items, first, maxBytes) && Served(base, entries, files, name, items, maxBytes)
  }

  lemma PutNone(base: map<Key, Entry>, files: map<Path, File>, next: nat, name: Key -> Path, maxBytes: nat)
    requires Strict(base, next)
    ensures PutJust(base, [], base, files, next, name, maxBytes)
  {
  }

  lemma PutOneMore(base: map<Key, Entry>, items: seq<Item>, entries: map<Key, Entry>, files: map<Path, File>, next: nat,
                   name: Key -> Path, maxBytes: nat, i: Item, entries': map<Key, Entry>, files': map<Path, File>,
                   next': nat)
    requires PutJust(base, items, entries, files, next, name, maxBytes)
    requires (maxBytes == 0 || i.key !in base) && !KeyIn(items, i.key)
    requires forall k :: k in entries ==> entries[k].path == name(k)
    requires PutStep(entries, files, next, entries', files', next', name, maxBytes, i)
    ensures PutJust(base, items + [i], entries', files', next', name, maxBytes)
  {
    hide Filled, Served, PutStep, Strict, KeyIn;
    PutNext(entries, files, next, entries', files', next', name, maxBytes, i);
    FilledMore(base, entries, name, items, next - |items|, maxBytes, i, files, entries', files');
    ServedMore(base, entries, files, name, items, next - |items|, maxBytes, i, entries', files');
  }

  ghost predicate OwnKeys(items: seq<Item>) {
    forall i, j :: 0 <= i < j < |items| ==> items[i].key != items[j].key
  }

  lemma {:induction false} ItemAt(base: map<Key, Entry>, name: Key -> Path, items: seq<Item>, next: nat, n: nat)
    requires OwnKeys(items) && n < |items|
    ensures var all, i := WithItems(base, name, items, next), items[n];
      i.key in all && all[i.key] == Entry(name(i.key), EntrySize(i.key, i.payload), next + n)
    decreases |items|
  {
    var front := items[..|items| - 1];
    if n < |front| {
      assert front[n] == items[n];
      ItemAt(base, name, front, next, n);
    }
  }

  lemma OlderThanItems(base: map<Key, Entry>, name: Key -> Path, items: seq<Item>, next: nat, k: Key)
    requires Strict(base, next) && k in base && !KeyIn(items, k)
    ensures var all := WithItems(base, name, items, next); k in all && all[k] == base[k] && all[k].recency < next
    decreases |items|
  {
    if items != [] {
      var front := items[..|items| - 1];
      assert items == front + [items[|items| - 1]];
      assert items[|items| - 1].key != k;
      OlderThanItems(base, name, front, next, k);
    }
  }

  /** Of items put, the latest stay, and nothing older than one that is gone does;
      without a limit all stay. */
  lemma LatestStay(base: map<Key, Entry>, items: seq<Item>, entries: map<Key, Entry>, files: map<Path, File>, next: int,
                   name: Key -> Path, maxBytes: nat, n: nat)
    requires PutJust(base, items, entries, files, next, name, maxBytes) && OwnKeys(items) && n < |items|
    ensures maxBytes == 0 ==> items[n].key in entries
    ensures items[n].key !in entries ==> forall m :: 0 <= m < n ==> items[m].key !in entries
    ensures items[n].key !in entries ==> forall k :: k in base && !KeyIn(items, k) ==> k !in entries
    ensures items[n].key in entries ==> entries[items[n].key].size == EntrySize(items[n].key, items[n].payload)
  {
    var first := next - |items|;
    var all := WithItems(base, name, items, first);
    ItemAt(base, name, items, first, n);
    FilledPart(base, entries, name, items, first, maxBytes);
    hide WithItems, DroppedOldest, Served, KeyIn, OwnKeys, Strict;
    if items[n].key !in entries {
      forall m | 0 <= m < n ensures items[m].key !in entries {
        ItemAt(base, name, items, first, m);
        GoneBelow(all, entries, maxBytes, items[n].key, items[m].key);
      }
      forall k | k in base && !KeyIn(items, k) ensures k !in entries {
        OlderThanItems(base, name, items, first, k);
        GoneBelow(all, entries, maxBytes, items[n].key, k);
      }
    }
  }

  /** Without a limit an item can be read exactly if it was not overwritten. */
  lemma ServedFree(base: map<Key, Entry>, items: seq<Item>, entries: map<Key, Entry>, files: map<Path, File>,
                   next: int, name: Key -> Path, n: nat)
    requires PutJust(base, items, entries, files, next, name, 0) && n < |items|
    ensures ReadableIn(entries, files, items[n].key) <==> !Overwritten(name, items, n)
  {
    hide Filled, Strict;
    assert ServedAt(base, entries, files, name, items, 0, n);
  }

  /** An item that stays can be read if no other has its filename. */
  lemma ServedAlone(base: map<Key, Entry>, items: seq<Item>, entries: map<Key, Entry>, files: map<Path, File>,
                    next: int, name: Key -> Path, maxBytes: nat, n: nat)
    requires PutJust(base, items, entries, files, next, name, maxBytes) && OwnKeys(items) && n < |items|
    requires items[n].key in entries && !Crowded(base, name, items, n)
    ensures ReadableIn(entries, files, items[n].key)
  {
    hide Filled, Strict;
    assert ServedAt(base, entries, files, name, items, maxBytes, n);
  }

  lemma GoneBelow(all: map<Key, Entry>, entries: map<Key, Entry>, room: int, x: Key, y: Key)
    requires DroppedOldest(all, entries, room) && x in all && x !in entries && y in all
    ensures all[y].recency < all[x].recency ==> y !in entries
  {
    hide Sum;
  }

  // ---- The store ----------------------------------------------------------

  ghost predicate FilesOk(files: map<Path, File>, name: Key -> Path, last: map<Key, Payload>) {
    forall p :: p in files ==>
      p == name(files[p].key) && files[p].key in last && files[p].payload == last[files[p].key]
  }

  ghost predicate EntriesOk(entries: map<Key, Entry>, name: Key -> Path, last: map<Key, Payload>) {
    forall k :: k in entries ==>
      entries[k].path == name(k) && k in last && entries[k].size == EntrySize(k, last[k])
  }

  /** The entry's file is there and is its own. */
  ghost predicate ReadableIn(entries: map<Key, Entry>, files: map<Path, File>, k: Key) {
    k in entries && entries[k].path in files && files[entries[k].path].key == k
  }

  /** The two entries have the same filename. */
  ghost predicate ClashIn(entries: map<Key, Entry>, j: Key, k: Key) {
    j in entries && k in entries && entries[j].path == entries[k].path
  }

  /** What is done to one key's entry leaves the others readable, except those
      whose filename clashes with it. */
  ghost predicate OthersKept(entries: map<Key, Entry>, files: map<Path, File>,
                             entries': map<Key, Entry>, files': map<Path, File>, key: Key)
  {
    forall k :: k != key && ReadableIn(entries, files, k) && !ClashIn(entries, k, key) ==>
      ReadableIn(entries', files', k)
  }

  /** What a miss does: the entry goes, and the file of its name with it, whoever
      that belongs to, unless the deletion fails. */
  ghost predicate Missed(entries: map<Key, Entry>, files: map<Path, File>,
                         entries': map<Key, Entry>, files': map<Path, File>, key: Key, failed: bool)
  {
    && entries' == entries - {key}
    && files' == if key in entries && !failed then files - {entries[key].path} else files
  }

  lemma MissedGone(entries: map<Key, Entry>, files: map<Path, File>, entries': map<Key, Entry>, files': map<Path, File>,
                   key: Key, failed: bool)
    requires Missed(entries, files, entries', files', key, failed)
    ensures entries' == entries - {key}
  {
  }

  lemma RemovedOthers(entries: map<Key, Entry>, files: map<Path, File>, key: Key)
    ensures OthersKept(entries, files, entries - {key}, files, key)
    ensures key in entries ==> OthersKept(entries, files, entries - {key}, files - {entries[key].path}, key)
  {
  }

  lemma UsedOthers(entries: map<Key, Entry>, files: map<Path, File>, key: Key, e: Entry)
    requires key in entries && e.path == entries[key].path
    ensures OthersKept(entries, files, entries[key := e], files, key)
  {
  }

  lemma NothingTouched(entries: map<Key, Entry>, files: map<Path, File>, key: Key)
    ensures OthersKept(entries, files, entries, files, key)
  {
  }

  lemma KeptTwice(entries: map<Key, Entry>, files: map<Path, File>, entries': map<Key, Entry>, key: Key, e: Entry,
                  entries'': map<Key, Entry>, files'': map<Path, File>)
    requires key in entries && e.path == entries[key].path && entries' == entries[key := e]
    requires OthersKept(entries', files, entries'', files'', key)
    ensures OthersKept(entries, files, entries'', files'', key)
  {
    forall k | k != key && ReadableIn(entries, files, k) && !ClashIn(entries, k, key)
      ensures ReadableIn(entries'', files'', k)
    {
      assert ReadableIn(entries', files, k) && !ClashIn(entries', k, key);
    }
  }

  /** The two agree everywhere but at p. */
  ghost predicate SameBut(files: map<Path, File>, files': map<Path, File>, p: Path) {
    forall q :: q != p ==> (q in files <==> q in files') && (q in files ==> files'[q] == files[q])
  }

  lemma SameButTwice(f: map<Path, File>, g: map<Path, File>, h: map<Path, File>, p: Path)
    requires SameBut(f, g, p) && SameBut(g, h, p)
    ensures SameBut(f, h, p)
  {
  }

  lemma Emptied(f: map<Path, File>, g: map<Path, File>, p: Path)
    requires g == f || g == f - {p}
    ensures SameBut(f, g, p)
  {
  }

  /** No two files were written at the same time, and none in the future. */
  ghost predicate Stamped(files: map<Path, File>, clock: nat) {
    && (forall p :: p in files ==> files[p].stamp < clock)
    && (forall p, q :: p in files && q in files && p != q ==> files[p].stamp != files[q].stamp)
  }

  /** Recency counts the uses, and a file bears the time of its key's last write. */
  ghost predicate Dated(entries: map<Key, Entry>, files: map<Path, File>, uses: seq<Use>, next: nat) {
    && next == |uses| + 1
    && (forall k :: k in entries ==> entries[k].recency == LastUse(uses, k) + 1 >= 1)
    && (forall k :: ReadableIn(entries, files, k) ==>
          LastWrite(uses, k) >= 0 && uses[LastWrite(uses, k)].at == files[entries[k].path].stamp)
  }

  lemma DatedLess(entries: map<Key, Entry>, files: map<Path, File>, uses: seq<Use>, next: nat, ks: set<Key>,
                  ps: set<Path>)
    requires Dated(entries, files, uses, next)
    ensures Dated(entries - ks, files - ps, uses, next)
  {
  }

  /** A new entry, for a file of this key written at this time. */
  lemma DatedWrite(entries: map<Key, Entry>, files: map<Path, File>, files': map<Path, File>, uses: seq<Use>, next: nat,
                   key: Key, e: Entry, at: nat)
    requires Dated(entries, files, uses, next) && e.recency == next
    requires e.path in files' && files'[e.path].key == key && files'[e.path].stamp == at
    requires forall p :: p in files' && p != e.path ==> p in files && files'[p] == files[p]
    ensures Dated(entries[key := e], files', uses + [Wrote(key, at)], next + 1)
  {
    var entries', uses' := entries[key := e], uses + [Wrote(key, at)];
    forall k ensures LastUse(uses', k) == if k == key then |uses| else LastUse(uses, k)
      ensures LastWrite(uses', k) == if k == key then |uses| else LastWrite(uses, k)
    {
      Later(uses, Wrote(key, at), k);
    }
    forall k | ReadableIn(entries', files', k)
      ensures LastWrite(uses', k) >= 0 && uses'[LastWrite(uses', k)].at == files'[entries'[k].path].stamp
    {
      if k != key { assert ReadableIn(entries, files, k); }
    }
  }

  lemma DatedRead(entries: map<Key, Entry>, files: map<Path, File>, uses: seq<Use>, next: nat, key: Key)
    requires Dated(entries, files, uses, next) && key in entries
    ensures Dated(entries[key := entries[key].(recency := next)], files, uses + [Read(key)], next + 1)
  {
    hide LastUse, LastWrite;
    var entries' := entries[key := entries[key].(recency := next)];
    forall k ensures LastUse(uses + [Read(key)], k) == if k == key then |uses| else LastUse(uses, k)
      ensures LastWrite(uses + [Read(key)], k) == LastWrite(uses, k)
    {
      Later(uses, Read(key), k);
    }
    forall k | ReadableIn(entries', files, k) ensures ReadableIn(entries, files, k) {}
  }

  /** Entries, files, history and the two clocks agree. */
  ghost predicate Books(entries: map<Key, Entry>, files: map<Path, File>, name: Key -> Path, last: map<Key, Payload>,
                        uses: seq<Use>, next: nat, clock: nat)
  {
    && Strict(entries, next) && FilesOk(files, name, last) && EntriesOk(entries, name, last)
    && Stamped(files, clock) && Rising(uses, clock) && Dated(entries, files, uses, next)
  }

  lemma BooksSay(entries: map<Key, Entry>, files: map<Path, File>, name: Key -> Path, last: map<Key, Payload>,
                 uses: seq<Use>, next: nat, clock: nat)
    requires Books(entries, files, name, last, uses, next, clock)
    ensures forall k :: k in entries ==> entries[k].recency < next && entries[k].path == name(k)
    ensures forall k :: ReadableIn(entries, files, k) ==> k in last && files[entries[k].path].payload == last[k]
  {
    hide Dated, Rising, Stamped;
  }

  lemma BooksStrict(entries: map<Key, Entry>, files: map<Path, File>, name: Key -> Path, last: map<Key, Payload>,
                    uses: seq<Use>, next: nat, clock: nat)
    requires Books(entries, files, name, last, uses, next, clock)
    ensures Strict(entries, next)
  {
    hide Dated, Rising, Stamped;
  }

  lemma BooksLess(entries: map<Key, Entry>, files: map<Path, File>, name: Key -> Path, last: map<Key, Payload>,
                  uses: seq<Use>, next: nat, clock: nat, ks: set<Key>, ps: set<Path>)
    requires Books(entries, files, name, last, uses, next, clock)
    ensures Books(entries - ks, files - ps, name, last, uses, next, clock)
  {
    hide Dated, Rising;
    DatedLess(entries, files, uses, next, ks, ps);
  }

  lemma BooksWrite(entries: map<Key, Entry>, files: map<Path, File>, name: Key -> Path, last: map<Key, Payload>,
                   uses: seq<Use>, next: nat, clock: nat, key: Key, data: Payload)
    requires Books(entries, files, name, last, uses, next, clock)
    ensures var e := Entry(name(key), EntrySize(key, data), next);
      Books(entries[key := e], files[name(key) := File(key, data, clock)], name, last[key := data],
            uses + [Wrote(key, clock)], next + 1, clock + 1)
  {
    var e, f := Entry(name(key), EntrySize(key, data), next), File(key, data, clock);
    hide Dated, Strict, FilesOk, EntriesOk, Stamped, Rising;
    Written(entries, files, name, last, key, data, next, clock);
    DatedWrite(entries, files, files[name(key) := f], uses, next, key, e, clock);
    StampedMore(files, clock, name(key), f);
    RisingMore(uses, clock, key);
  }

  lemma BooksRead(entries: map<Key, Entry>, files: map<Path, File>, name: Key -> Path, last: map<Key, Payload>,
                  uses: seq<Use>, next: nat, clock: nat, key: Key)
    requires Books(entries, files, name, last, uses, next, clock) && key in entries
    ensures Books(entries[key := entries[key].(recency := next)], files, name, last, uses + [Read(key)], next + 1,
                  clock)
    ensures forall k :: k in entries && k != key ==> entries[k].recency < next
  {
    hide Dated, FilesOk, Stamped, Rising;
    DatedRead(entries, files, uses, next, key);
    RisingMore(uses, clock, key);
  }

  lemma StampedMore(files: map<Path, File>, clock: nat, p: Path, f: File)
    requires Stamped(files, clock) && f.stamp == clock
    ensures Stamped(files[p := f], clock + 1)
  {
  }

  lemma RisingMore(uses: seq<Use>, clock: nat, key: Key)
    requires Rising(uses, clock)
    ensures Rising(uses + [Wrote(key, clock)], clock + 1) && Rising(uses + [Read(key)], clock)
  {
  }

  lemma Written(entries: map<Key, Entry>, files: map<Path, File>, name: Key -> Path, last: map<Key, Payload>,
                       key: Key, data: Payload, next: nat, at: nat)
    requires Strict(entries, next) && FilesOk(files, name, last) && EntriesOk(entries, name, last)
    ensures Strict(entries[key := Entry(name(key), EntrySize(key, data), next)], next + 1)
    ensures EntriesOk(entries[key := Entry(name(key), EntrySize(key, data), next)], name, last[key := data])
    ensures FilesOk(files[name(key) := File(key, data, at)], name, last[key := data])
  {
  }

  class DiskCacheStore {
    const name: Key -> Path     // the filename hash; collisions are possible
    const maxBytes: nat         // 0 means no limit
    var entries: map<Key, Entry>
    var files: map<Path, File>
    var total: nat
    var nextRecency: nat
    var clock: nat              // file modification time; every write is later than all before
    ghost var uses: seq<Use>            // what was written and read
    ghost var undeleted: nat            // deletions that failed
    ghost var unwritten: nat            // writes that failed
    ghost var last: map<Key, Payload>   // payload of the last successful put

    ghost predicate Valid()
      reads this
    {
      total == Sum(entries) && Books(entries, files, name, last, uses, nextRecency, clock)
    }

    ghost predicate Readable(k: Key)
      reads this
    {
      ReadableIn(entries, files, k)
    }

    /** An entry that a restart will find. */
    ghost predicate Kept(k: Key)
      reads this
    {
      Readable(k) && |k| <= MAX_KEY
    }

    /** Larger than the whole budget. */
    ghost predicate TooLarge(key: Key, data: Payload) { maxBytes != 0 && EntrySize(key, data) > maxBytes }

    constructor (name: Key -> Path, maxBytes: nat)
      ensures Valid() && this.name == name && this.maxBytes == maxBytes
      ensures entries == map[] && files == map[] && last == map[] && uses == [] && undeleted == unwritten == 0
    {
      this.name, this.maxBytes := name, maxBytes;
      entries, files, total, nextRecency, clock, last, uses := map[], map[], 0, 1, 0, map[], [];
      undeleted, unwritten := 0, 0;
    }

    /** Drops an entry. Deleting its file is attempted; the error is ignored. */
    method Remove(k: Key) returns (present: bool)
      requires Valid()
      modifies `entries, `files, `total, `undeleted
      ensures Valid() && present == (k in old(entries)) && undeleted >= old(undeleted)
      ensures !present ==> undeleted == old(undeleted)
      ensures Missed(old(entries), old(files), entries, files, k, undeleted > old(undeleted))
      ensures OthersKept(old(entries), old(files), entries, files, k)
    {
      hide OthersKept, Sum, Books;
      RemovedOthers(entries, files, k);
      if k !in entries {
        assert entries - {k} == entries;
        return false;
      }
      SumWithout(entries, k);
      var path := entries[k].path;
      BooksLess(entries, files, name, last, uses, nextRecency, clock, {k}, {});
      BooksLess(entries, files, name, last, uses, nextRecency, clock, {k}, {path});
      assert files - {} == files;
      var gone: bool := *;
      if gone { files := files - {path}; } else { undeleted := undeleted + 1; }
      total := total - entries[k].size;
      entries := entries - {k};
      return true;
    }

    method EvictUntilFits(incoming: nat)
      requires Valid()
      modifies `entries, `files, `total, `undeleted
      ensures Valid() && files.Keys <= old(files).Keys && entries.Keys <= old(entries).Keys
      ensures undeleted >= old(undeleted)
      ensures if maxBytes == 0 then entries == old(entries) && files == old(files) && undeleted == old(undeleted)
              else FewestOldest(old(entries), entries, maxBytes - incoming)
      ensures FilesKept(old(entries), old(files), entries, files, {})
    {
      hide Sum, Books, Oldest, DroppedOldest, FilesKept, OthersKept;
      NothingLost(entries, files);
      NothingDropped(entries, maxBytes - incoming);
      if maxBytes == 0 { return; }
      ghost var before := entries;
      while entries != map[] && total + incoming > maxBytes
        invariant Valid() && files.Keys <= old(files).Keys && undeleted >= old(undeleted)
        invariant DroppedOldest(before, entries, maxBytes - incoming)
        invariant FilesKept(before, old(files), entries, files, {})
        decreases |entries.Keys|
      {
        var k := LeastRecent(entries);
        BooksStrict(entries, files, name, last, uses, nextRecency, clock);
        DropOne(before, entries, nextRecency, k, maxBytes - incoming);
        DroppedPart(before, entries, maxBytes - incoming);
        ghost var held, left := entries, files;
        var present := Remove(k);
        KeptRemoved(before, old(files), held, left, k, files, {});
      }
      DroppedPart(before, entries, maxBytes - incoming);
    }

    /** Overwrites, evicting until the entry fits; an entry larger than the
        whole budget is refused. */
    method Put(key: Key, data: Payload) returns (ok: bool)
      requires Valid()
      modifies this
      ensures Valid() && undeleted >= old(undeleted)
      ensures maxBytes == 0 && key !in old(entries) ==> undeleted == old(undeleted)
      ensures unwritten == old(unwritten) + if ok || TooLarge(key, data) then 0 else 1
      ensures TooLarge(key, data) ==> !ok && entries == old(entries) && files == old(files)
      ensures !ok ==> last == old(last) && entries.Keys <= old(entries).Keys
      ensures ok ==> last == old(last)[key := data] && Readable(key) && entries[key].path == name(key)
      ensures ok && maxBytes != 0 ==> total <= maxBytes
      ensures !ok && !TooLarge(key, data) ==> key !in entries
      ensures !TooLarge(key, data) && maxBytes != 0 ==>
        FewestOldest(old(entries) - {key}, entries - {key}, maxBytes - EntrySize(key, data))
      ensures maxBytes == 0 ==> entries - {key} == old(entries) - {key} && SameBut(old(files), files, name(key))
      ensures ok ==> uses == old(uses) + [Wrote(key, old(clock))]
      ensures ok ==> forall k :: k in entries && k != key ==> entries[k].recency < entries[key].recency
      ensures ok ==> PutStep(old(entries), old(files), old(nextRecency), entries, files, nextRecency, name, maxBytes,
                             Item(key, data))
      ensures !ok ==> nextRecency == old(nextRecency)
    {
      hide Sum, Books, FewestOldest, SameBut, FilesKept, PutStep;
      var incoming := EntrySize(key, data);
      if maxBytes != 0 && incoming > maxBytes { return false; }
      MakeRoom(key, incoming);
      ghost var kept, emptied := entries, files;
      ok := Write(key, data);
      if ok {
        Entered(kept, entries, emptied, files, key, name(key));
        Stepped(old(entries), old(files), old(nextRecency), kept, emptied, entries, files, name, maxBytes,
                Item(key, data), files[name(key)]);
      } else {
        assert entries - {key} == kept;
        Emptied(emptied, files, name(key));
      }
      if maxBytes == 0 { SameButTwice(old(files), emptied, files, name(key)); }
    }

    static lemma Entered(kept: map<Key, Entry>, entries: map<Key, Entry>, emptied: map<Path, File>,
                         files: map<Path, File>, key: Key, p: Path)
      requires key !in kept && key in entries && entries == kept[key := entries[key]]
      requires p in files && files == emptied[p := files[p]]
      ensures entries - {key} == kept && SameBut(emptied, files, p)
    {
    }

    /** The old entry goes, and then the oldest ones until the new one fits. */
    method MakeRoom(key: Key, incoming: nat)
      requires Valid() && (maxBytes != 0 ==> incoming <= maxBytes)
      modifies `entries, `files, `total, `undeleted
      ensures Valid() && key !in entries && entries.Keys <= old(entries).Keys && undeleted >= old(undeleted)
      ensures maxBytes == 0 ==> entries == old(entries) - {key} && SameBut(old(files), files, name(key))
      ensures maxBytes == 0 && key !in old(entries) ==> undeleted == old(undeleted)
      ensures maxBytes != 0 ==>
        FewestOldest(old(entries) - {key}, entries, maxBytes - incoming) && total <= maxBytes - incoming
      ensures FilesKept(old(entries), old(files), entries, files, {name(key)})
      ensures key in old(entries) ==> old(entries)[key].path == name(key)
    {
      hide Sum, Books, FewestOldest, OthersKept, SameBut, FilesKept;
      BooksSay(entries, files, name, last, uses, nextRecency, clock);
      var present := Remove(key);
      Emptied(old(files), files, name(key));
      ghost var before, left := entries, files;
      EvictUntilFits(incoming);
      KeptAfterRemove(old(entries), old(files), left, key, name(key), entries, files);
      if maxBytes != 0 { Fits(before, entries, maxBytes - incoming); }
      NotThere(before, entries, maxBytes, incoming, key);
    }

    /** Writes the file of a key that has no entry, and enters it as the newest. */
    method Write(key: Key, data: Payload) returns (ok: bool)
      requires Valid() && key !in entries
      modifies this
      ensures Valid() && undeleted == old(undeleted) && unwritten == old(unwritten) + if ok then 0 else 1
      ensures !ok ==> last == old(last) && entries == old(entries) && files == old(files) - {name(key)}
      ensures ok ==> last == old(last)[key := data] && uses == old(uses) + [Wrote(key, old(clock))]
      ensures ok ==> files == old(files)[name(key) := File(key, data, old(clock))]
      ensures ok ==> entries == old(entries)[key := Entry(name(key), EntrySize(key, data), old(nextRecency))]
      ensures ok ==> total == old(total) + EntrySize(key, data) && nextRecency == old(nextRecency) + 1
      ensures !ok ==> nextRecency == old(nextRecency)
      ensures forall k :: k in old(entries) ==> old(entries)[k].recency < old(nextRecency)
    {
      hide Sum, Books;
      BooksSay(entries, files, name, last, uses, nextRecency, clock);
      var path := name(key);
      var written: bool := *;
      if !written {
        BooksLess(entries, files, name, last, uses, nextRecency, clock, {}, {path});
        assert entries - {} == entries;
        files, unwritten := files - {path}, unwritten + 1;
        return false;
      }
      var e := Entry(path, EntrySize(key, data), nextRecency);
      BooksWrite(entries, files, name, last, uses, nextRecency, clock, key, data);
      SumAdded(entries, key, e);
      files, uses, clock := files[path := File(key, data, clock)], uses + [Wrote(key, clock)], clock + 1;
      entries := entries[key := e];
      total, nextRecency, last := total + e.size, nextRecency + 1, last[key := data];
      return true;
    }

    static lemma Fits(before: map<Key, Entry>, after: map<Key, Entry>, room: nat)
      requires FewestOldest(before, after, room)
      ensures Sum(after) <= room
    {
    }

    static lemma NotThere(before: map<Key, Entry>, after: map<Key, Entry>, maxBytes: nat, incoming: nat, key: Key)
      requires if maxBytes == 0 then after == before else FewestOldest(before, after, maxBytes - incoming)
      requires key !in before
      ensures key !in after
    {
      hide Sum;
    }

    /** Nothing, or the payload of the last successful put under this key; the
        entry then counts as just used. */
    method Get(key: Key) returns (r: Option<Payload>)
      requires Valid()
      modifies `entries, `files, `total, `nextRecency, `uses, `undeleted
      ensures Valid() && undeleted >= old(undeleted)
      ensures r.Some? <==> old(Readable(key))
      ensures r.Some? ==> key in last && r.value == last[key]
      ensures r.Some? ==> files == old(files) && entries.Keys == old(entries).Keys && uses == old(uses) + [Read(key)]
      ensures r.Some? ==> entries == old(entries)[key := old(entries)[key].(recency := old(nextRecency))]
      ensures r.Some? ==> forall k :: k in entries && k != key ==> entries[k].recency < entries[key].recency
      ensures r.Some? ==> undeleted == old(undeleted)
      ensures r.None? ==> Missed(old(entries), old(files), entries, files, key, undeleted > old(undeleted))
      ensures r.None? ==> uses == old(uses)
      ensures OthersKept(old(entries), old(files), entries, files, key)
    {
      hide Sum, Books;
      BooksSay(entries, files, name, last, uses, nextRecency, clock);
      if key !in entries {
        assert entries - {key} == entries;
        RemovedOthers(entries, files, key);
        return None;
      }
      var e := entries[key];
      if e.path !in files || files[e.path].key != key {
        var present := Remove(key);
        return None;
      }
      var e' := e.(recency := nextRecency);
      SumTouched(entries, key, e');
      BooksRead(entries, files, name, last, uses, nextRecency, clock, key);
      UsedOthers(entries, files, key, e');
      r := Some(files[e.path].payload);
      entries, nextRecency, uses := entries[key := e'], nextRecency + 1, uses + [Read(key)];
    }

    /** Starts from what a previous store left on disk. Files with a sane key are
        indexed, those written earlier as used earlier. */
    constructor Reopen(name: Key -> Path, maxBytes: nat, files: map<Path, File>, clock: nat,
                       ghost last: map<Key, Payload>)
      requires FilesOk(files, name, last) && Stamped(files, clock)
      ensures Valid() && this.name == name && this.maxBytes == maxBytes && this.files == files && this.last == last
      ensures ListsAll(entries, files, name) && forall k :: k in entries ==> |k| <= 4096
      ensures ByWriteTime(entries, files)
    {
      hide *;
      this.name, this.maxBytes, this.files, this.clock, this.last := name, maxBytes, files, clock, last;
      entries, total, nextRecency, uses, undeleted, unwritten := map[], 0, 1, [], 0, 0;
      new;
      var order := ByAge(files, clock);
      Index(order);
      SaneKeys(entries, files, name);
    }

    method Index(order: seq<Path>)
      requires FilesOk(files, name, last) && Stamped(files, clock) && Aged(files, order)
      requires entries == map[] && nextRecency == 1 && total == 0 && uses == []
      modifies `entries, `total, `nextRecency, `uses
      ensures Valid() && ByWriteTime(entries, files)
      ensures ListsAll(entries, files, name)
    {
      IndexedNone(files, name, last, order, clock);
      hide Sum, FilesOk, EntrySize, Indexed, Stamped, Aged, ListsAll, ByWriteTime, Strict, EntriesOk, Dated, Rising;
      for i := 0 to |order|
        invariant Indexed(files, name, last, order, clock, i, entries, nextRecency, total, uses)
      {
        IndexedStep(files, name, last, order, clock, i, entries, nextRecency, total, uses);
        var f := files[order[i]];
        if |f.key| > MAX_KEY { continue; }
        var e := Entry(order[i], EntrySize(f.key, f.payload), nextRecency);
        entries, uses := entries[f.key := e], uses + [Wrote(f.key, f.stamp)];
        total, nextRecency := total + e.size, nextRecency + 1;
      }
      IndexedAll(files, name, last, order, clock, entries, nextRecency, total, uses);
    }

    /** Closing the store and opening it again. Of two readable entries the order
        of eviction stays what it was if and only if the one written earlier was
        not read after the last use of the other. */
    static method Restart(s: DiskCacheStore) returns (r: DiskCacheStore)
      requires s.Valid()
      ensures fresh(r) && r.Valid() && r.files == s.files && r.last == s.last
      ensures forall k :: s.Kept(k) ==> k in r.entries
      ensures forall j, k :: s.Kept(j) && s.Kept(k) && LastWrite(s.uses, j) < LastWrite(s.uses, k) ==>
        ((r.entries[j].recency < r.entries[k].recency <==> s.entries[j].recency < s.entries[k].recency)
         <==> !ReadSince(s.uses, j, k))
    {
      hide Sum, Strict, FilesOk, Stamped;
      r := new DiskCacheStore.Reopen(s.name, s.maxBytes, s.files, s.clock, s.last);
      forall k | s.Kept(k) ensures k in r.entries && r.entries[k].path == s.entries[k].path {
        assert Listable(s.files, s.name, k);
      }
      forall j, k | s.Kept(j) && s.Kept(k) && LastWrite(s.uses, j) < LastWrite(s.uses, k)
        ensures (r.entries[j].recency < r.entries[k].recency <==> s.entries[j].recency < s.entries[k].recency)
                <==> !ReadSince(s.uses, j, k)
      {
        OrdersAgree(s.uses, j, k);
      }
    }
  }

  // ---- Reopening ----------------------------------------------------------

  /** The key's own file is there, and the key is not absurd. */
  ghost predicate Listable(files: map<Path, File>, name: Key -> Path, k: Key) {
    name(k) in files && files[name(k)].key == k && |k| <= MAX_KEY
  }

  /** Exactly the listable keys have an entry. */
  ghost predicate ListsAll(entries: map<Key, Entry>, files: map<Path, File>, name: Key -> Path) {
    forall k :: k in entries <==> Listable(files, name, k)
  }

  lemma SaneKeys(entries: map<Key, Entry>, files: map<Path, File>, name: Key -> Path)
    requires ListsAll(entries, files, name)
    ensures forall k :: k in entries ==> |k| <= 4096
  {
  }

  ghost predicate ByWriteTime(entries: map<Key, Entry>, files: map<Path, File>) {
    forall j, k :: j in entries && k in entries ==>
      && entries[j].path in files && entries[k].path in files
      && (entries[j].recency < entries[k].recency <==> files[entries[j].path].stamp < files[entries[k].path].stamp)
  }

  /** All files, from the longest unmodified to the newest. */
  ghost predicate Aged(files: map<Path, File>, order: seq<Path>) {
    && files.Keys == (set p | p in order)
    && (forall i, j :: 0 <= i < j < |order| ==>
          order[i] in files && order[j] in files && files[order[i]].stamp < files[order[j]].stamp)
  }

  /** The oldest files listed by age, the others still left. */
  ghost predicate AgedBut(files: map<Path, File>, order: seq<Path>, left: set<Path>) {
    && left <= files.Keys && files.Keys - left == (set p | p in order)
    && (forall i :: 0 <= i < |order| ==> order[i] in files)
    && (forall i, j :: 0 <= i < j < |order| ==> files[order[i]].stamp < files[order[j]].stamp)
    && (forall i, p :: 0 <= i < |order| && p in left ==> files[order[i]].stamp < files[p].stamp)
  }

  lemma NextByAge(files: map<Path, File>, clock: nat, order: seq<Path>, left: set<Path>, p: Path)
    requires Stamped(files, clock) && AgedBut(files, order, left) && p in left
    requires forall q :: q in left ==> files[p].stamp <= files[q].stamp
    ensures AgedBut(files, order + [p], left - {p})
  {
    assert (set q | q in order + [p]) == (set q | q in order) + {p};
    assert files.Keys - (left - {p}) == (files.Keys - left) + {p};
  }

  /** The files in order of their modification times. */
  method ByAge(files: map<Path, File>, ghost clock: nat) returns (order: seq<Path>)
    requires Stamped(files, clock)
    ensures Aged(files, order)
  {
    order := [];
    var left := files.Keys;
    assert AgedBut(files, order, left);
    while left != {}
      invariant AgedBut(files, order, left)
      decreases |left|
    {
      hide Stamped;
      assert left <= files.Keys;
      hide AgedBut;
      var p := Eldest(files, left);
      NextByAge(files, clock, order, left, p);
      order, left := order + [p], left - {p};
    }
    assert files.Keys - left == files.Keys;
  }

  method Eldest(files: map<Path, File>, among: set<Path>) returns (p: Path)
    requires among != {} && among <= files.Keys
    ensures p in among && forall q :: q in among ==> files[p].stamp <= files[q].stamp
  {
    p :| p in among;
    var left := among - {p};
    while left != {}
      invariant left <= among && p in among
      invariant forall q :: q in among && q !in left ==> files[p].stamp <= files[q].stamp
      decreases |left|
    {
      var q :| q in left;
      if files[q].stamp < files[p].stamp { p := q; }
      left := left - {q};
    }
  }

  /** The index of the first i files. */
  ghost predicate Indexed(files: map<Path, File>, name: Key -> Path, last: map<Key, Payload>, order: seq<Path>,
                          clock: nat, i: nat, entries: map<Key, Entry>, next: nat, total: nat, uses: seq<Use>)
  {
    && i <= |order| && total == Sum(entries) && Strict(entries, next) && EntriesOk(entries, name, last)
    && Dated(entries, files, uses, next)
    && Rising(uses, if i < |order| && order[i] in files then files[order[i]].stamp else clock)
    && AllWritten(uses) && ListedUpTo(files, name, order, i, entries)
  }

  ghost predicate AllWritten(uses: seq<Use>) { forall j :: 0 <= j < |uses| ==> uses[j].Wrote? }

  ghost predicate ListedUpTo(files: map<Path, File>, name: Key -> Path, order: seq<Path>, i: nat,
                             entries: map<Key, Entry>)
    requires i <= |order|
  {
    forall k :: k in entries <==> name(k) in order[..i] && Listable(files, name, k)
  }

  lemma IndexedNone(files: map<Path, File>, name: Key -> Path, last: map<Key, Payload>, order: seq<Path>, clock: nat)
    ensures Indexed(files, name, last, order, clock, 0, map[], 1, 0, [])
  {
  }

  lemma IndexedStep(files: map<Path, File>, name: Key -> Path, last: map<Key, Payload>, order: seq<Path>, clock: nat,
                    i: nat, entries: map<Key, Entry>, next: nat, total: nat, uses: seq<Use>)
    requires FilesOk(files, name, last) && Stamped(files, clock) && Aged(files, order) && i < |order|
    requires Indexed(files, name, last, order, clock, i, entries, next, total, uses)
    ensures order[i] in files
    ensures var f := files[order[i]];
      var e := Entry(order[i], EntrySize(f.key, f.payload), next);
      if |f.key| > MAX_KEY then Indexed(files, name, last, order, clock, i + 1, entries, next, total, uses)
      else
        Indexed(files, name, last, order, clock, i + 1, entries[f.key := e], next + 1, total + e.size,
                uses + [Wrote(f.key, f.stamp)])
  {
    assert order[i] in order;
    var f := files[order[i]];
    assert name(f.key) == order[i] && last[f.key := f.payload] == last;
    var e := Entry(order[i], EntrySize(f.key, f.payload), next);
    assert forall key, at :: AllWritten(uses) ==> AllWritten(uses + [Wrote(key, at)]);
    hide Sum, Strict, Dated, Rising, FilesOk, Stamped, Aged, EntriesOk, AllWritten, ListedUpTo;
    ListedNext(files, name, last, order, i, entries, e);
    RisingNext(files, order, clock, i, uses);
    if |f.key| <= MAX_KEY {
      SumAdded(entries, f.key, e);
      Written(entries, files, name, last, f.key, f.payload, next, f.stamp);
      DatedWrite(entries, files, files, uses, next, f.key, e, f.stamp);
    }
  }

  lemma ListedNext(files: map<Path, File>, name: Key -> Path, last: map<Key, Payload>, order: seq<Path>, i: nat,
                   entries: map<Key, Entry>, e: Entry)
    requires FilesOk(files, name, last) && Aged(files, order) && i < |order| && order[i] in files
    requires ListedUpTo(files, name, order, i, entries)
    ensures var k := files[order[i]].key;
      && k !in entries
      && ListedUpTo(files, name, order, i + 1, if |k| > MAX_KEY then entries else entries[k := e])
  {
    assert order[..i + 1] == order[..i] + [order[i]] && name(files[order[i]].key) == order[i];
    forall j | 0 <= j < i ensures order[..i][j] != order[i] {
      assert files[order[j]].stamp < files[order[i]].stamp;
    }
  }

  lemma RisingNext(files: map<Path, File>, order: seq<Path>, clock: nat, i: nat, uses: seq<Use>)
    requires Stamped(files, clock) && Aged(files, order) && i < |order| && order[i] in files
    requires Rising(uses, files[order[i]].stamp)
    ensures var f := files[order[i]];
      var now := if i + 1 < |order| && order[i + 1] in files then files[order[i + 1]].stamp else clock;
      Rising(uses, now) && Rising(uses + [Wrote(f.key, f.stamp)], now)
  {
    if i + 1 < |order| { assert order[i + 1] in order; }
  }

  lemma IndexedAll(files: map<Path, File>, name: Key -> Path, last: map<Key, Payload>, order: seq<Path>, clock: nat,
                   entries: map<Key, Entry>, next: nat, total: nat, uses: seq<Use>)
    requires Aged(files, order) && Indexed(files, name, last, order, clock, |order|, entries, next, total, uses)
    ensures total == Sum(entries) && Strict(entries, next) && EntriesOk(entries, name, last)
    ensures Dated(entries, files, uses, next) && Rising(uses, clock)
    ensures ByWriteTime(entries, files) && ListsAll(entries, files, name)
  {
    hide Sum, Strict;
    assert order[..|order|] == order;
    forall k | k in entries
      ensures entries[k].path in files && LastUse(uses, k) == LastWrite(uses, k)
      ensures 0 <= LastUse(uses, k) && uses[LastUse(uses, k)].at == files[entries[k].path].stamp
    {
      assert ReadableIn(entries, files, k);
      assert uses[LastUse(uses, k)].Wrote?;
    }
  }

  /** Reads do not survive a restart: put a, put b, get a, and b is older than a;
      start again, and a is older than b. */
  method RestartForgetsReads(name: Key -> Path, a: Key, b: Key, data: Payload)
    returns (ok: bool, s: DiskCacheStore, r: DiskCacheStore)
    requires a != b && name(a) != name(b) && |a| <= 4096 && |b| <= 4096
    ensures fresh(s) && fresh(r) && s.Valid() && (ok <==> s.unwritten == 0)
    ensures ok ==> exists t, u :: s.uses == [Wrote(a, t), Wrote(b, u), Read(a)]
    ensures ok ==> s.Kept(a) && s.Kept(b) && s.entries[b].recency < s.entries[a].recency
    ensures ok ==> r.Valid() && r.files == s.files && r.last == s.last
    ensures ok ==> a in r.entries && b in r.entries && r.entries[a].recency < r.entries[b].recency
  {
    ok, s := PutPutGet(name, a, b, data);
    r := s;
    if !ok { return; }
    ReadAfterWrites(s.uses, a, b);
    hide Sum, Books, ReadSince, LastWrite, LastUse;
    r := DiskCacheStore.Restart(s);
    assert s.Kept(a) && s.Kept(b);
  }

  method PutPutGet(name: Key -> Path, a: Key, b: Key, data: Payload) returns (ok: bool, s: DiskCacheStore)
    requires a != b && name(a) != name(b)
    ensures fresh(s) && s.Valid() && (ok <==> s.unwritten == 0)
    ensures ok ==> s.Readable(a) && s.Readable(b) && s.entries[b].recency < s.entries[a].recency
    ensures ok ==> exists t, u :: s.uses == [Wrote(a, t), Wrote(b, u), Read(a)]
  {
    hide Sum, Books, OthersKept, SameBut;
    ok := false;
    s := new DiskCacheStore(name, 0);
    ghost var t := s.clock;
    var first := s.Put(a, data);
    if !first { return; }
    ghost var u, entries, files := s.clock, s.entries, s.files;
    var second := s.Put(b, data);
    if !second { return; }
    assert entries[a].path == name(a) && s.entries[b].path == name(b);
    StillThere(entries, files, s.entries, s.files, a, b, name(b));
    ghost var uses := s.uses;
    assert uses == [Wrote(a, t), Wrote(b, u)];
    var got := s.Get(a);
    assert s.uses == [Wrote(a, t), Wrote(b, u), Read(a)];
    ok := true;
  }

  lemma StillThere(entries: map<Key, Entry>, files: map<Path, File>, entries': map<Key, Entry>, files': map<Path, File>,
                   a: Key, b: Key, p: Path)
    requires ReadableIn(entries, files, a) && a != b && entries[a].path != p
    requires entries' - {b} == entries - {b} && SameBut(files, files', p)
    ensures ReadableIn(entries', files', a)
  {
    assert a in entries - {b} && a in entries' - {b};
    assert (entries' - {b})[a] == entries'[a];
  }

  lemma ReadAfterWrites(uses: seq<Use>, a: Key, b: Key)
    requires |uses| == 3 && uses[0].Wrote? && uses[0].key == a && uses[1].Wrote? && uses[1].key == b
    requires uses[2] == Read(a) && a != b
    ensures 0 == LastWrite(uses, a) < LastWrite(uses, b) && ReadSince(uses, a, b)
  {
    assert LastWrite(uses, b) == 1 && LastUse(uses, b) == 1;
    assert LastWrite(uses, a) == 0;
  }

  /** A clash of filenames costs more than the entry overwritten: put u, put t
      under the same filename, get u, and t is gone too, unless its file could not
      be deleted. */
  method ClashDeletes(name: Key -> Path, u: Key, t: Key, data: Payload) returns (ok: bool, s: DiskCacheStore)
    requires u != t && name(u) == name(t)
    ensures fresh(s) && s.Valid() && (ok <==> s.unwritten == 0)
    ensures ok ==> exists c, d :: s.uses == [Wrote(u, c), Wrote(t, d)]
    ensures ok ==> u !in s.entries && t in s.entries && t in s.last && (s.Readable(t) <==> s.undeleted > 0)
  {
    hide Sum, Books, OthersKept;
    ok, s := PutClash(name, u, t, data);
    if !ok { return; }
    var missed := s.Get(u);
  }

  method PutClash(name: Key -> Path, u: Key, t: Key, data: Payload) returns (ok: bool, s: DiskCacheStore)
    requires u != t && name(u) == name(t)
    ensures fresh(s) && s.Valid() && (ok <==> s.unwritten == 0) && s.undeleted == 0
    ensures ok ==> exists c, d :: s.uses == [Wrote(u, c), Wrote(t, d)]
    ensures ok ==> s.Readable(t) && t in s.last && ClashIn(s.entries, u, t) && !s.Readable(u)
  {
    hide Sum, Books, OthersKept, SameBut;
    ok := false;
    s := new DiskCacheStore(name, 0);
    ghost var c := s.clock;
    var first := s.Put(u, data);
    if !first { return; }
    assert t !in s.entries by { assert t !in s.entries - {u}; }
    ghost var entries, d := s.entries, s.clock;
    ok := s.Put(t, data);
    if !ok { return; }
    assert u in entries - {t} && (entries - {t})[u] == entries[u];
    assert u in s.entries - {t} && (s.entries - {t})[u] == s.entries[u];
    assert s.uses == [Wrote(u, c), Wrote(t, d)];
  }
}
