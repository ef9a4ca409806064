/**
 The bounded credit-balance cache of open-sse/executors/antigravity.ts: an insertion-ordered
 map with a time to live, filled once from the database. Clock readings and the outcomes of
 database calls are parameters.
 */
module CreditBalanceCache {
  import opened JsText
  import opened JsObject

  const MAX_ENTRIES: nat := 50
  const TTL_MS: int := 5 * 60 * 1000

  datatype Slot = Slot(balance: int, updatedAt: int)

  /** A persisted balance; `at` is the clock when the load gets to it. */
  datatype Row = Row(key: string, balance: int, at: int)

  type Entries = Fields<Slot>

  predicate Has(entries: Entries, key: string) { Get(entries, key).Some? }

  predicate IsFresh(slot: Slot, now: int) { now - slot.updatedAt <= TTL_MS }

  // ----- the operations, on values -----

  function AddMissing(entries: Entries, rows: seq<Row>): Entries {
    if rows == [] then entries
    else
      var prior, row := AddMissing(entries, rows[..|rows| - 1]), rows[|rows| - 1];
      if Has(prior, row.key) then prior else prior + [(row.key, Slot(row.balance, row.at))]
  }

  function FreshOnes(entries: Entries, now: int): Entries {
    if entries == [] then []
    else
      var e := entries[|entries| - 1];
      FreshOnes(entries[..|entries| - 1], now) + (if IsFresh(e.1, now) then [e] else [])
  }

  function Newest(entries: Entries): Entries {
    if |entries| > MAX_ENTRIES then entries[|entries| - MAX_ENTRIES..] else entries
  }

  predicate Evicts(entries: Entries, key: string) { |entries| >= MAX_ENTRIES && !Has(entries, key) }

  function Updated(entries: Entries, key: string, slot: Slot): Entries {
    Put(if Evicts(entries, key) then entries[1..] else entries, key, slot)
  }

  function Lookup(entries: Entries, key: string, now: int): (Option<int>, Entries) {
    match Get(entries, key)
    case None => (None, entries)
    case Some(slot) => if IsFresh(slot, now) then (Some(slot.balance), entries) else (None, Remove(entries, key))
  }

  /** One use of the cache: `rows` is what the database returns, none when reading it fails. */
  datatype Op =
    | Read(key: string, now: int, rows: Option<seq<Row>>)
    | Write(key: string, balance: int, now: int, persists: bool)
    | Sweep(now: int)

  /** The cache and the persisted balances. */
  datatype World = World(entries: Entries, hydrated: bool, db: map<string, int>) {
    predicate Loads(op: Op) { op.Read? && op.rows.Some? && !hydrated }

    function Filled(op: Op): Entries {
      if Loads(op) then AddMissing(entries, op.rows.value) else entries
    }

    function Answer(op: Op): Option<int>
      requires op.Read?
    {
      Lookup(Filled(op), op.key, op.now).0
    }

    function Next(op: Op): World {
      match op
      case Read(key, now, _) => World(Lookup(Filled(op), key, now).1, true, db)
      case Write(key, balance, now, persists) =>
        World(Updated(entries, key, Slot(balance, now)), hydrated, if persists then db[key := balance] else db)
      case Sweep(now) => World(Newest(FreshOnes(entries, now)), hydrated, db)
    }
  }

  // ----- the code -----

  class Cache {
    var entries: Entries
    var hydrated: bool
    var persisted: map<string, int>

    constructor (persisted: map<string, int>)
      ensures Value() == World([], false, persisted)
    {
      this.entries, this.hydrated, this.persisted := [], false, persisted;
    }

    function Value(): World
      reads this
    {
      World(entries, hydrated, persisted)
    }

    method Hydrate(rows: Option<seq<Row>>)
      modifies this
      ensures hydrated && persisted == old(persisted)
      ensures entries == if old(hydrated) || rows.None? then old(entries) else AddMissing(old(entries), rows.value)
    {
      if hydrated { return; }
      hydrated := true;
      if rows.Some? {
        for i := 0 to |rows.value|
          invariant hydrated && persisted == old(persisted) && entries == AddMissing(old(entries), rows.value[..i])
        {
          assert rows.value[..i + 1][..i] == rows.value[..i];
          var row := rows.value[i];
          if !Has(entries, row.key) {
            entries := entries + [(row.key, Slot(row.balance, row.at))];
          }
        }
        assert rows.value[..|rows.value|] == rows.value;
      }
    }

    method GetRemainingCredits(key: string, now: int, rows: Option<seq<Row>>) returns (balance: Option<int>)
      modifies this
      ensures balance == old(Value()).Answer(Read(key, now, rows))
      ensures Value() == old(Value()).Next(Read(key, now, rows))
    {
      Hydrate(rows);
      var i := Find(entries, key);
      if i == |entries| {
        return None;
      }
      if now - entries[i].1.updatedAt > TTL_MS {
        entries := Remove(entries, key);
        return None;
      }
      return Some(entries[i].1.balance);
    }

    method UpdateRemainingCredits(key: string, balance: int, now: int, persists: bool)
      modifies this
      ensures Value() == old(Value()).Next(Write(key, balance, now, persists))
    {
      if |entries| >= MAX_ENTRIES && !Has(entries, key) {
        entries := entries[1..];
      }
      entries := Put(entries, key, Slot(balance, now));
      if persists { persisted := persisted[key := balance]; }
    }

    method EvictStaleEntries(now: int)
      modifies this
      ensures Value() == old(Value()).Next(Sweep(now))
    {
      var all, kept := entries, [];
      for i := 0 to |all|
        invariant kept == FreshOnes(all[..i], now)
      {
        assert all[..i + 1][..i] == all[..i];
        if now - all[i].1.updatedAt <= TTL_MS { kept := kept + [all[i]]; }
      }
      assert all[..|all|] == all;
      entries := kept;
      while |entries| > MAX_ENTRIES
        invariant Newest(entries) == Newest(kept) && hydrated == old(hydrated) && persisted == old(persisted)
        decreases |entries|
      {
        entries := entries[1..];
      }
    }
  }

  // ----- what each operation keeps -----

  lemma EntriesAre(entries: Entries, key: string)
    requires DistinctKeys(entries)
    ensures forall slot :: (key, slot) in entries <==> Get(entries, key) == Some(slot)
  {
    GetIs(entries, key);
    forall slot | (key, slot) in entries ensures Get(entries, key) == Some(slot) {
      var i :| 0 <= i < |entries| && entries[i] == (key, slot);
    }
  }

  lemma WithoutOldest(entries: Entries)
    requires DistinctKeys(entries) && entries != []
    ensures DistinctKeys(entries[1..])
    ensures forall x :: x in entries[1..] <==> x in entries && x != entries[0]
  {
    forall x | x in entries && x != entries[0] ensures x in entries[1..] {
      var i :| 0 <= i < |entries| && entries[i] == x;
      assert entries[1..][i - 1] == x;
    }
  }

  /**
   A write keeps the entry it writes and every other one, except that at the limit a new key
   drops the oldest; so the cache never grows beyond the larger of the limit and its size.
   */
  lemma UpdateBounds(entries: Entries, key: string, slot: Slot)
    requires DistinctKeys(entries)
    ensures var after := Updated(entries, key, slot);
      && DistinctKeys(after) && |after| <= (if |entries| > MAX_ENTRIES then |entries| else MAX_ENTRIES)
      && forall x :: x in after
           <==> x == (key, slot) || (x in entries && x.0 != key && !(Evicts(entries, key) && x == entries[0]))
  {
    if Evicts(entries, key) {
      WithoutOldest(entries);
      PutHolds(entries[1..], key, slot);
    } else {
      PutHolds(entries, key, slot);
    }
  }

  lemma {:induction false} FreshOnesKeep(entries: Entries, now: int)
    requires DistinctKeys(entries)
    ensures DistinctKeys(FreshOnes(entries, now))
    ensures forall x :: x in FreshOnes(entries, now) <==> x in entries && IsFresh(x.1, now)
  {
    if entries == [] {
    } else {
      var init, e := entries[..|entries| - 1], entries[|entries| - 1];
      FreshOnesKeep(init, now);
      forall x | x in FreshOnes(init, now) ensures x.0 != e.0 {
        var k :| 0 <= k < |init| && init[k] == x;
        assert entries[k] == x;
      }
      assert entries == init + [e];
    }
  }

  /** A sweep leaves the fresh entries, in their order; beyond the limit it drops the oldest of them only. */
  lemma SweepBounds(entries: Entries, now: int)
    requires DistinctKeys(entries)
    ensures var live, after := FreshOnes(entries, now), Newest(FreshOnes(entries, now));
      && (forall x :: x in live <==> x in entries && IsFresh(x.1, now))
      && DistinctKeys(after) && |after| <= MAX_ENTRIES && |after| <= |live| && after == live[|live| - |after|..]
      && (|after| < |live| ==> |after| == MAX_ENTRIES)
  {
    FreshOnesKeep(entries, now);
  }

  /** The first row for the account. */
  function FirstRow(rows: seq<Row>, key: string): Option<Row> {
    if rows == [] then None
    else
      var prior := FirstRow(rows[..|rows| - 1], key);
      if prior.Some? then prior else if rows[|rows| - 1].key == key then Some(rows[|rows| - 1]) else None
  }

  function LoadedSlot(rows: seq<Row>, key: string): Option<Slot> {
    match FirstRow(rows, key)
    case None => None
    case Some(row) => Some(Slot(row.balance, row.at))
  }

  /** Loading adds rows of absent accounts only, and changes nothing that is there. */
  lemma {:induction false} AddMissingIs(entries: Entries, rows: seq<Row>, key: string)
    requires DistinctKeys(entries)
    ensures var after := AddMissing(entries, rows);
      && DistinctKeys(after) && entries <= after
      && Get(after, key) == if Has(entries, key) then Get(entries, key) else LoadedSlot(rows, key)
  {
    if rows == [] {
    } else {
      var init, row := rows[..|rows| - 1], rows[|rows| - 1];
      var prior := AddMissing(entries, init);
      AddMissingIs(entries, init, key);
      AddMissingIs(entries, init, row.key);
      if !Has(prior, row.key) {
        var slot := Slot(row.balance, row.at);
        GetIs(prior, row.key);
        PutNew(prior, row.key, slot);
        PutIs(prior, row.key, slot);
      }
    }
  }

  lemma RemoveIs(entries: Entries, key: string, other: string)
    requires DistinctKeys(entries)
    ensures DistinctKeys(Remove(entries, key))
    ensures Get(Remove(entries, key), other) == if other == key then None else Get(entries, other)
  {
    RemoveGet(entries, key, other);
  }

  lemma LookupIs(entries: Entries, key: string, slot: Slot, now: int)
    requires Get(entries, key) == Some(slot)
    ensures Lookup(entries, key, now).0 == if now - slot.updatedAt <= TTL_MS then Some(slot.balance) else None
  {
  }

  /** Whatever is loaded, an entry that is there stays. */
  lemma FilledKeeps(w: World, op: Op, key: string)
    requires DistinctKeys(w.entries) && Has(w.entries, key)
    ensures Get(w.Filled(op), key) == Get(w.entries, key)
  {
    if w.Loads(op) { AddMissingIs(w.entries, op.rows.value, key); }
  }

  /** A written balance is read back until it is older than the time to live, whatever is loaded meanwhile. */
  lemma ReadYourWrite(w: World, write: Op, read: Op)
    requires DistinctKeys(w.entries) && write.Write? && read.Read? && read.key == write.key
    ensures w.Next(write).Answer(read) == if read.now - write.now <= TTL_MS then Some(write.balance) else None
  {
    var slot, next := Slot(write.balance, write.now), w.Next(write);
    UpdateBounds(w.entries, write.key, slot);
    EntriesAre(next.entries, write.key);
    FilledKeeps(next, read, write.key);
    LookupIs(next.Filled(read), read.key, slot, read.now);
  }

  /** A read changes no later answer for its key at the same time. */
  lemma ReadAgain(w: World, op: Op, again: Op)
    requires DistinctKeys(w.entries) && op.Read? && again.Read? && again.key == op.key && again.now == op.now
    ensures w.Next(op).Answer(again) == w.Answer(op)
  {
    if w.Loads(op) { AddMissingIs(w.entries, op.rows.value, op.key); }
    RemoveIs(w.Filled(op), op.key, op.key);
  }

  // ----- what each use leaves, spelled out -----

  predicate Full(entries: Entries, key: string) {
    |entries| >= 50 && forall i :: 0 <= i < |entries| ==> entries[i].0 != key
  }

  lemma FullExactly(entries: Entries, key: string)
    ensures Evicts(entries, key) <==> Full(entries, key)
  {
  }

  lemma KeysOfPut(entries: Entries, key: string, slot: Slot)
    ensures Keys(Put(entries, key, slot)) == if key in Keys(entries) then Keys(entries) else Keys(entries) + [key]
  {
    var i := Find(entries, key);
    if i < |entries| {
      assert Keys(entries)[i] == key;
    } else {
      assert forall k :: 0 <= k < |entries| ==> Keys(entries)[k] != key;
    }
  }

  /** The order of the keys after a write: a known key keeps its place, a new one goes last. */
  lemma WriteOrders(entries: Entries, key: string, slot: Slot)
    requires DistinctKeys(entries)
    ensures Keys(Updated(entries, key, slot))
         == if key in Keys(entries) then Keys(entries)
            else (if Full(entries, key) then Keys(entries)[1..] else Keys(entries)) + [key]
  {
    FullExactly(entries, key);
    KeysOfPut(if Evicts(entries, key) then entries[1..] else entries, key, slot);
    if Evicts(entries, key) {
      assert Keys(entries[1..]) == Keys(entries)[1..];
      assert forall k :: 0 <= k < |entries| ==> Keys(entries)[k] != key;
    }
  }

  /** What a write leaves of the entries: its own and every other, but for the oldest of a full cache with a new key. */
  lemma WriteHolds(before: Entries, key: string, slot: Slot)
    requires DistinctKeys(before)
    ensures var after := Updated(before, key, slot);
      && DistinctKeys(after) && |after| <= (if |before| > 50 then |before| else 50)
      && forall x :: x in after <==> || x == (key, slot)
                                     || (x in before && x.0 != key && !(Full(before, key) && x == before[0]))
  {
    UpdateBounds(before, key, slot);
    FullExactly(before, key);
  }

  /**
   A write leaves its entry and every other one, except that in a full cache a new key drops the
   oldest entry.
   */
  lemma WriteLeaves(w: World, key: string, balance: int, now: int, persists: bool)
    requires DistinctKeys(w.entries)
    ensures var next := w.Next(Write(key, balance, now, persists));
      var before, after := w.entries, next.entries;
      && DistinctKeys(after) && |after| <= (if |before| > 50 then |before| else 50)
      && (forall x :: x in after <==> || x == (key, Slot(balance, now))
                                      || (x in before && x.0 != key && !(Full(before, key) && x == before[0])))
      && Keys(after) == (if key in Keys(before) then Keys(before)
                         else (if Full(before, key) then Keys(before)[1..] else Keys(before)) + [key])
      && next.hydrated == w.hydrated && next.db == if persists then w.db[key := balance] else w.db
  {
    WriteHolds(w.entries, key, Slot(balance, now));
    WriteOrders(w.entries, key, Slot(balance, now));
  }

  ghost predicate Increasing(places: seq<nat>) {
    forall p, q :: 0 <= p < q < |places| ==> places[p] < places[q]
  }

  /** The entries at the places. */
  ghost predicate Picks(after: Entries, before: Entries, places: seq<nat>) {
    && Increasing(places) && |after| == |places|
    && forall p :: 0 <= p < |places| ==> places[p] < |before| && after[p] == before[places[p]]
  }

  lemma PicksNext(kept: Entries, all: Entries, places: seq<nat>, n: nat)
    requires Picks(kept, all, places) && n < |all| && forall i :: i in places ==> i < n
    ensures Picks(kept + [all[n]], all, places + [n])
    ensures forall i :: i in places + [n] <==> i in places || i == n
  {
    forall p | 0 <= p < |places| ensures places[p] < n {
      assert places[p] in places;
    }
  }

  lemma FreshOnesNext(entries: Entries, now: int, n: nat)
    requires n < |entries|
    ensures FreshOnes(entries[..n + 1], now)
         == if IsFresh(entries[n].1, now) then FreshOnes(entries[..n], now) + [entries[n]]
            else FreshOnes(entries[..n], now)
  {
    assert entries[..n + 1][..n] == entries[..n];
  }

  lemma FreshOnesAt(entries: Entries, now: int) returns (places: seq<nat>)
    ensures Picks(FreshOnes(entries, now), entries, places)
    ensures forall i :: i in places <==> 0 <= i < |entries| && IsFresh(entries[i].1, now)
  {
    places := [];
    for n := 0 to |entries|
      invariant Picks(FreshOnes(entries[..n], now), entries, places)
      invariant forall i :: i in places <==> 0 <= i < n && IsFresh(entries[i].1, now)
    {
      FreshOnesNext(entries, now, n);
      if IsFresh(entries[n].1, now) {
        PicksNext(FreshOnes(entries[..n], now), entries, places, n);
        places := places + [n];
      }
    }
    assert entries[..|entries|] == entries;
  }

  /** The newest of the entries at the places. */
  lemma NewestAt(live: Entries, before: Entries, places: seq<nat>) returns (kept: seq<nat>)
    requires Picks(live, before, places)
    ensures Picks(Newest(live), before, kept) && |kept| <= 50 && (forall i :: i in kept ==> i in places)
    ensures forall i :: i in places && i !in kept ==> |kept| == 50 && i < kept[0]
  {
    var dropped := if |places| > 50 then |places| - 50 else 0;
    kept := places[dropped..];
    assert forall p :: dropped <= p < |places| ==> places[p] == kept[p - dropped];
    forall i | i in places && i !in kept ensures |kept| == 50 && i < kept[0] {
      var p :| 0 <= p < |places| && places[p] == i;
      assert p < dropped;
    }
  }

  /** A sweep keeps fresh entries only, in their order; at most 50, and then the newest. */
  lemma SweepLeaves(w: World, now: int) returns (kept: seq<nat>)
    ensures var next := w.Next(Sweep(now));
      && Picks(next.entries, w.entries, kept) && |kept| <= 50
      && (forall i :: i in kept ==> now - w.entries[i].1.updatedAt <= 300_000)
      && (forall i :: 0 <= i < |w.entries| && i !in kept && now - w.entries[i].1.updatedAt <= 300_000 ==>
            |kept| == 50 && i < kept[0])
      && next.hydrated == w.hydrated && next.db == w.db
  {
    var places := FreshOnesAt(w.entries, now);
    kept := NewestAt(FreshOnes(w.entries, now), w.entries, places);
  }

  /** Row `i` is the first for its account, which has no entry. */
  predicate IsNews(entries: Entries, rows: seq<Row>, i: nat)
    requires i < |rows|
  {
    rows[i].key !in Keys(entries) && forall j :: 0 <= j < i ==> rows[j].key != rows[i].key
  }

  /** The entries for the first `n` rows, in their order. */
  function News(entries: Entries, rows: seq<Row>, n: nat): Entries
    requires n <= |rows|
  {
    if n == 0 then []
    else
      News(entries, rows, n - 1)
      + (if IsNews(entries, rows, n - 1)
         then [(rows[n - 1].key, Slot(rows[n - 1].balance, rows[n - 1].at))] else [])
  }

  lemma HasIs(entries: Entries, key: string)
    ensures Has(entries, key) <==> key in Keys(entries)
    ensures Has(entries, key) <==> exists i :: 0 <= i < |entries| && entries[i].0 == key
  {
    assert |Keys(entries)| == |entries| && forall i :: 0 <= i < |entries| ==> Keys(entries)[i] == entries[i].0;
  }

  lemma HasSnoc(entries: Entries, e: (string, Slot), key: string)
    ensures Has(entries + [e], key) <==> Has(entries, key) || e.0 == key
  {
    HasIs(entries, key);
    HasIs(entries + [e], key);
    assert Keys(entries + [e]) == Keys(entries) + [e.0];
  }

  lemma {:induction false} NewsHold(entries: Entries, rows: seq<Row>, n: nat, key: string)
    requires n <= |rows|
    ensures Has(entries + News(entries, rows, n), key)
        <==> Has(entries, key) || exists j :: 0 <= j < n && rows[j].key == key
  {
    if n == 0 {
      assert entries + [] == entries;
    } else {
      var k := n - 1;
      var prior := entries + News(entries, rows, k);
      NewsHold(entries, rows, k, key);
      HasIs(entries, rows[k].key);
      if IsNews(entries, rows, k) {
        var e := (rows[k].key, Slot(rows[k].balance, rows[k].at));
        assert entries + News(entries, rows, n) == prior + [e];
        HasSnoc(prior, e, key);
      } else {
        assert News(entries, rows, n) == News(entries, rows, k);
      }
    }
  }

  /** A load leaves all entries, followed by those for the first rows of the other accounts. */
  lemma {:induction false} LoadLeaves(entries: Entries, rows: seq<Row>, n: nat)
    requires n <= |rows|
    ensures AddMissing(entries, rows[..n]) == entries + News(entries, rows, n)
  {
    if n == 0 {
      assert entries + [] == entries;
    } else {
      var k := n - 1;
      LoadLeaves(entries, rows, k);
      assert rows[..n][..k] == rows[..k];
      NewsHold(entries, rows, k, rows[k].key);
      HasIs(entries, rows[k].key);
    }
  }

  /** The entry of the key, too old to be read. */
  predicate IsStale(e: (string, Slot), key: string, now: int) { e.0 == key && now - e.1.updatedAt > 300_000 }

  /** The entries without the one of the key, if that is too old. */
  ghost predicate IsRidOfStale(after: Entries, filled: Entries, key: string, now: int) {
    && (forall i :: 0 <= i < |filled| && IsStale(filled[i], key, now) ==> after == filled[..i] + filled[i + 1..])
    && ((forall i :: 0 <= i < |filled| ==> !IsStale(filled[i], key, now)) ==> after == filled)
  }

  /** What looking a key up answers and leaves. */
  lemma LookupLeaves(filled: Entries, key: string, now: int)
    requires DistinctKeys(filled)
    ensures var (answer, after) := Lookup(filled, key, now);
      && (forall b :: answer == Some(b) <==> exists t :: (key, Slot(b, t)) in filled && now - t <= 300_000)
      && IsRidOfStale(after, filled, key, now)
  {
    EntriesAre(filled, key);
  }

  lemma FilledIs(w: World, key: string, now: int, rows: Option<seq<Row>>)
    requires DistinctKeys(w.entries)
    ensures DistinctKeys(w.Filled(Read(key, now, rows)))
    ensures w.Filled(Read(key, now, rows))
         == if w.hydrated || rows.None? then w.entries else w.entries + News(w.entries, rows.value, |rows.value|)
  {
    if !w.hydrated && rows.Some? {
      LoadLeaves(w.entries, rows.value, |rows.value|);
      assert rows.value[..|rows.value|] == rows.value;
      AddMissingIs(w.entries, rows.value, key);
    }
  }

  /**
   A read answers the balance of its key unless there is none or it is too old, and removes the one too
   old; it looks into the entries and, when it loads, the rows. The first read tries to load, no later one.
   */
  lemma ReadLeaves(w: World, key: string, now: int, rows: Option<seq<Row>>)
    requires DistinctKeys(w.entries)
    ensures var next, answer := w.Next(Read(key, now, rows)), w.Answer(Read(key, now, rows));
      var filled := if w.hydrated || rows.None? then w.entries
                    else w.entries + News(w.entries, rows.value, |rows.value|);
      && (forall b :: answer == Some(b) <==> exists t :: (key, Slot(b, t)) in filled && now - t <= 300_000)
      && IsRidOfStale(next.entries, filled, key, now)
      && next.hydrated && next.db == w.db
  {
    FilledIs(w, key, now, rows);
    LookupLeaves(w.Filled(Read(key, now, rows)), key, now);
  }

  // ----- every history -----

  /** The world after a history, from an empty cache over the database `db`. */
  function After(ops: seq<Op>, db: map<string, int>): World {
    if ops == [] then World([], false, db) else After(ops[..|ops| - 1], db).Next(ops[|ops| - 1])
  }

  /** The rows are the persisted balances, all of them, in some order. */
  ghost predicate RowsOf(rows: seq<Row>, db: map<string, int>) {
    && (forall row :: row in rows ==> row.key in db && db[row.key] == row.balance)
    && forall key :: key in db ==> FirstRow(rows, key).Some?
  }

  /** Every load returns what is persisted at that time. */
  ghost predicate Faithful(ops: seq<Op>, db: map<string, int>) {
    forall i :: 0 <= i < |ops| && After(ops[..i], db).Loads(ops[i])
      ==> RowsOf(ops[i].rows.value, After(ops[..i], db).db)
  }

  function Stored(db: map<string, int>, key: string): Option<int> {
    if key in db then Some(db[key]) else None
  }

  /** The balance written last, or the one the database started with. */
  function LastValue(ops: seq<Op>, db: map<string, int>, key: string): Option<int> {
    if ops == [] then Stored(db, key)
    else
      var op := ops[|ops| - 1];
      if op.Write? && op.key == key then Some(op.balance) else LastValue(ops[..|ops| - 1], db, key)
  }

  /** What an unbounded cache without expiry would hold: the last write, or a loaded row that found no entry. */
  function Source(ops: seq<Op>, db: map<string, int>, key: string): Option<Slot> {
    if ops == [] then None
    else
      var init, op := ops[..|ops| - 1], ops[|ops| - 1];
      var w := After(init, db);
      if op.Write? && op.key == key then Some(Slot(op.balance, op.now))
      else if w.Loads(op) && !Has(w.entries, key) && LoadedSlot(op.rows.value, key).Some?
      then LoadedSlot(op.rows.value, key)
      else Source(init, db, key)
  }

  /**
   The load stored a balance that is not the last one: the key had no entry then, what was
   persisted for it was not what was written last, and it has not been written since.
   */
  function StaleLoad(ops: seq<Op>, db: map<string, int>, key: string): bool {
    if ops == [] then false
    else
      var init, op := ops[..|ops| - 1], ops[|ops| - 1];
      var w := After(init, db);
      if op.Write? && op.key == key then false
      else if w.Loads(op) && !Has(w.entries, key) && key in w.db then LastValue(init, db, key) != Some(w.db[key])
      else StaleLoad(init, db, key)
  }

  /** Distinct keys, each holding what the unbounded cache would. */
  ghost predicate Supplied(entries: Entries, ops: seq<Op>, db: map<string, int>) {
    DistinctKeys(entries) && forall key :: Has(entries, key) ==> Get(entries, key) == Source(ops, db, key)
  }

  lemma SupplySnoc(ops: seq<Op>, op: Op, db: map<string, int>, key: string)
    ensures var w := After(ops, db);
      && After(ops + [op], db) == w.Next(op)
      && Source(ops + [op], db, key)
           == (if op.Write? && op.key == key then Some(Slot(op.balance, op.now))
               else if w.Loads(op) && !Has(w.entries, key) && LoadedSlot(op.rows.value, key).Some?
                    then LoadedSlot(op.rows.value, key)
               else Source(ops, db, key))
  {
    assert (ops + [op])[..|ops|] == ops;
  }

  lemma WriteSupplies(ops: seq<Op>, op: Op, db: map<string, int>)
    requires op.Write? && Supplied(After(ops, db).entries, ops, db)
    ensures Supplied(After(ops + [op], db).entries, ops + [op], db)
  {
    var entries, slot := After(ops, db).entries, Slot(op.balance, op.now);
    var after := Updated(entries, op.key, slot);
    UpdateBounds(entries, op.key, slot);
    SupplySnoc(ops, op, db, op.key);
    forall key | Has(after, key) ensures Get(after, key) == Source(ops + [op], db, key) {
      SupplySnoc(ops, op, db, key);
      EntriesAre(after, key);
      EntriesAre(entries, key);
    }
  }

  lemma SweepSupplies(ops: seq<Op>, op: Op, db: map<string, int>)
    requires op.Sweep? && Supplied(After(ops, db).entries, ops, db)
    ensures Supplied(After(ops + [op], db).entries, ops + [op], db)
  {
    var entries := After(ops, db).entries;
    var after := Newest(FreshOnes(entries, op.now));
    SweepBounds(entries, op.now);
    SupplySnoc(ops, op, db, "");
    forall key | Has(after, key) ensures Get(after, key) == Source(ops + [op], db, key) {
      SupplySnoc(ops, op, db, key);
      EntriesAre(after, key);
      EntriesAre(entries, key);
    }
  }

  /** What a read looks the key up in. */
  lemma FilledSupplies(ops: seq<Op>, op: Op, db: map<string, int>)
    requires op.Read? && Supplied(After(ops, db).entries, ops, db)
    ensures Supplied(After(ops, db).Filled(op), ops + [op], db)
  {
    var w := After(ops, db);
    if w.Loads(op) { AddMissingIs(w.entries, op.rows.value, op.key); }
    forall key | Has(w.Filled(op), key) ensures Get(w.Filled(op), key) == Source(ops + [op], db, key) {
      SupplySnoc(ops, op, db, key);
      if w.Loads(op) { AddMissingIs(w.entries, op.rows.value, key); }
    }
  }

  lemma ReadSupplies(ops: seq<Op>, op: Op, db: map<string, int>)
    requires op.Read? && Supplied(After(ops, db).entries, ops, db)
    ensures Supplied(After(ops + [op], db).entries, ops + [op], db)
  {
    var filled := After(ops, db).Filled(op);
    FilledSupplies(ops, op, db);
    SupplySnoc(ops, op, db, op.key);
    forall key ensures Get(Remove(filled, op.key), key) == if key == op.key then None else Get(filled, key) {
      RemoveIs(filled, op.key, key);
    }
    RemoveIs(filled, op.key, op.key);
  }

  /** In every history the cache holds nothing the unbounded one would not. */
  lemma {:induction false} EntriesAreSupplied(ops: seq<Op>, db: map<string, int>)
    ensures Supplied(After(ops, db).entries, ops, db)
  {
    if ops == [] {
    } else {
      var init, op := ops[..|ops| - 1], ops[|ops| - 1];
      EntriesAreSupplied(init, db);
      assert init + [op] == ops;
      match op
      case Write(_, _, _, _) => WriteSupplies(init, op, db);
      case Sweep(_) => SweepSupplies(init, op, db);
      case Read(_, _, _) => ReadSupplies(init, op, db);
    }
  }

  // ----- the size of the cache -----

  predicate HasRead(ops: seq<Op>) { exists op :: op in ops && op.Read? }

  /** Only the first read of a history tries to load. */
  lemma {:induction false} FirstReadLoads(ops: seq<Op>, db: map<string, int>)
    ensures After(ops, db).hydrated <==> HasRead(ops)
  {
    if ops == [] {
    } else {
      var init, op := ops[..|ops| - 1], ops[|ops| - 1];
      FirstReadLoads(init, db);
      assert op in ops && forall o :: o in ops <==> o in init || o == op;
    }
  }

  /** How many rows the first read brought, if it could load. */
  function LoadedRows(ops: seq<Op>): nat {
    if ops == [] then 0
    else
      var init, op := ops[..|ops| - 1], ops[|ops| - 1];
      if op.Read? && op.rows.Some? && !HasRead(init) then |op.rows.value| else LoadedRows(init)
  }

  lemma {:induction false} NewsAreFew(entries: Entries, rows: seq<Row>, n: nat)
    requires n <= |rows|
    ensures |News(entries, rows, n)| <= n
  {
    if n == 0 {
    } else {
      NewsAreFew(entries, rows, n - 1);
    }
  }

  lemma {:induction false} NothingLoadedYet(ops: seq<Op>)
    requires !HasRead(ops)
    ensures LoadedRows(ops) == 0
  {
    if ops == [] {
    } else {
      assert ops[|ops| - 1] in ops && forall o :: o in ops[..|ops| - 1] ==> o in ops;
      NothingLoadedYet(ops[..|ops| - 1]);
    }
  }

  /** How one more use changes the size. */
  lemma NextSize(w: World, op: Op)
    requires DistinctKeys(w.entries)
    ensures var n := |w.Next(op).entries|;
      match op
      case Write(_, _, _, _) => n <= if |w.entries| > 50 then |w.entries| else 50
      case Sweep(_) => n <= 50
      case Read(_, _, rows) => n <= |w.entries| + (if w.hydrated || rows.None? then 0 else |rows.value|)
  {
    match op
    case Write(key, balance, now, persists) => WriteLeaves(w, key, balance, now, persists);
    case Sweep(now) => var _ := SweepLeaves(w, now);
    case Read(key, now, rows) =>
      ReadLeaves(w, key, now, rows);
      if rows.Some? { NewsAreFew(w.entries, rows.value, |rows.value|); }
  }

  /** In every history the cache holds at most 50 entries beyond the rows of its one load, and 50 after a sweep. */
  lemma {:induction false} CacheStaysSmall(ops: seq<Op>, db: map<string, int>)
    ensures |After(ops, db).entries| <= 50 + LoadedRows(ops)
    ensures ops != [] && ops[|ops| - 1].Sweep? ==> |After(ops, db).entries| <= 50
  {
    if ops == [] {
    } else {
      var init, op := ops[..|ops| - 1], ops[|ops| - 1];
      CacheStaysSmall(init, db);
      EntriesAreSupplied(init, db);
      FirstReadLoads(init, db);
      NextSize(After(init, db), op);
      if !HasRead(init) { NothingLoadedYet(init); }
    }
  }

  // ----- what is current -----

  lemma {:induction false} FirstRowIs(rows: seq<Row>, key: string)
    ensures FirstRow(rows, key).Some? ==> FirstRow(rows, key).value in rows && FirstRow(rows, key).value.key == key
  {
    if rows == [] {
    } else {
      FirstRowIs(rows[..|rows| - 1], key);
    }
  }

  lemma FaithfulPrefix(ops: seq<Op>, db: map<string, int>)
    requires ops != [] && Faithful(ops, db)
    ensures Faithful(ops[..|ops| - 1], db)
  {
    var init := ops[..|ops| - 1];
    forall i | 0 <= i < |init| && After(init[..i], db).Loads(init[i])
      ensures RowsOf(init[i].rows.value, After(init[..i], db).db)
    {
      assert init[..i] == ops[..i] && init[i] == ops[i];
    }
  }

  /** The unbounded cache is wrong about a key exactly when the load was. */
  lemma {:induction false} SourceIsLastExactly(ops: seq<Op>, db: map<string, int>, key: string)
    requires Faithful(ops, db) && Source(ops, db, key).Some?
    ensures Some(Source(ops, db, key).value.balance) == LastValue(ops, db, key) <==> !StaleLoad(ops, db, key)
  {
    var init, op := ops[..|ops| - 1], ops[|ops| - 1];
    var w := After(init, db);
    FaithfulPrefix(ops, db);
    if op.Write? && op.key == key {
    } else if w.Loads(op) && !Has(w.entries, key) {
      FirstRowIs(op.rows.value, key);
      assert RowsOf(op.rows.value, w.db);
      if key !in w.db { SourceIsLastExactly(init, db, key); }
    } else {
      SourceIsLastExactly(init, db, key);
    }
  }

  /** The load of a whole database is right about every absent account exactly when the database is. */
  lemma LoadIsCurrentExactly(entries: Entries, rows: seq<Row>, ops: seq<Op>, db: map<string, int>,
                             wdb: map<string, int>)
    requires DistinctKeys(entries) && RowsOf(rows, wdb)
    requires forall key :: Has(entries, key) ==> Some(Get(entries, key).value.balance) == LastValue(ops, db, key)
    ensures var filled := AddMissing(entries, rows);
      (forall key :: Has(filled, key) ==> Some(Get(filled, key).value.balance) == LastValue(ops, db, key))
      <==> forall key :: key in wdb && !Has(entries, key) ==> LastValue(ops, db, key) == Some(wdb[key])
  {
    var filled := AddMissing(entries, rows);
    forall key ensures Has(filled, key) <==> Has(entries, key) || key in wdb {
      AddMissingIs(entries, rows, key);
      FirstRowIs(rows, key);
    }
    forall key | key in wdb && !Has(entries, key) ensures Get(filled, key).value.balance == wdb[key] {
      AddMissingIs(entries, rows, key);
      FirstRowIs(rows, key);
    }
    forall key | Has(entries, key) ensures Get(filled, key) == Get(entries, key) {
      AddMissingIs(entries, rows, key);
    }
  }

  /**
   In every history, a balance that is read was written or loaded at most the time to live ago;
   and it is the last one exactly when its load was not stale.
   */
  lemma ReadsAreCurrentExactly(ops: seq<Op>, op: Op, db: map<string, int>)
    requires op.Read? && Faithful(ops + [op], db)
    ensures var answer, source := After(ops, db).Answer(op), Source(ops + [op], db, op.key);
      answer.Some? ==>
        && source.Some? && source.value.balance == answer.value && op.now - source.value.updatedAt <= TTL_MS
        && (answer == LastValue(ops, db, op.key) <==> !StaleLoad(ops + [op], db, op.key))
  {
    var all := ops + [op];
    assert all[..|ops|] == ops;
    EntriesAreSupplied(ops, db);
    FilledSupplies(ops, op, db);
    if After(ops, db).Answer(op).Some? {
      SourceIsLastExactly(all, db, op.key);
    }
  }

  /** Every write before the first read reached the database. */
  ghost predicate EarlyWritesPersist(ops: seq<Op>, db: map<string, int>) {
    forall i :: 0 <= i < |ops| && ops[i].Write? && !After(ops[..i], db).hydrated ==> ops[i].persists
  }

  /** Until the first read the database has every last balance. */
  lemma {:induction false} PersistedIsLast(ops: seq<Op>, db: map<string, int>, key: string)
    requires EarlyWritesPersist(ops, db) && !After(ops, db).hydrated
    ensures LastValue(ops, db, key) == Stored(After(ops, db).db, key)
  {
    if ops == [] {
    } else {
      var n := |ops| - 1;
      assert forall i :: 0 <= i < n ==> ops[..n][..i] == ops[..i];
      PersistedIsLast(ops[..n], db, key);
      assert ops[n].Write? ==> ops[n].persists;
    }
  }

  lemma {:induction false} PersistedLoadIsNotStale(ops: seq<Op>, db: map<string, int>, key: string)
    requires EarlyWritesPersist(ops, db)
    ensures !StaleLoad(ops, db, key)
  {
    if ops == [] {
    } else {
      var n := |ops| - 1;
      assert forall i :: 0 <= i < n ==> ops[..n][..i] == ops[..i];
      PersistedLoadIsNotStale(ops[..n], db, key);
      if After(ops[..n], db).Loads(ops[n]) { PersistedIsLast(ops[..n], db, key); }
    }
  }

  /** So, where the writes before the first read were persisted, every balance read is the last one. */
  lemma ReadsAreCurrent(ops: seq<Op>, op: Op, db: map<string, int>)
    requires op.Read? && Faithful(ops + [op], db) && EarlyWritesPersist(ops + [op], db)
    ensures After(ops, db).Answer(op).Some? ==> After(ops, db).Answer(op) == LastValue(ops, db, op.key)
  {
    ReadsAreCurrentExactly(ops, op, db);
    PersistedLoadIsNotStale(ops + [op], db, op.key);
  }

  // ----- the load of a history -----

  /** The balance written last among the writes that were persisted. */
  function LastPersisted(ops: seq<Op>, db: map<string, int>, key: string): Option<int> {
    if ops == [] then Stored(db, key)
    else
      var op := ops[|ops| - 1];
      if op.Write? && op.key == key && op.persists then Some(op.balance)
      else LastPersisted(ops[..|ops| - 1], db, key)
  }

  /** So a load is stale about an absent key when its last write was lost and differs from the one before. */
  lemma {:induction false} DatabaseHoldsLastPersisted(ops: seq<Op>, db: map<string, int>, key: string)
    ensures Stored(After(ops, db).db, key) == LastPersisted(ops, db, key)
  {
    if ops == [] {
    } else {
      DatabaseHoldsLastPersisted(ops[..|ops| - 1], db, key);
    }
  }

  lemma {:induction false} NothingIsStaleBeforeTheLoad(ops: seq<Op>, db: map<string, int>, key: string)
    requires !After(ops, db).hydrated
    ensures !StaleLoad(ops, db, key)
  {
    if ops == [] {
    } else {
      NothingIsStaleBeforeTheLoad(ops[..|ops| - 1], db, key);
    }
  }

  /**
   After the one load of a history every entry is the last balance of its key exactly when, of
   every key that had no entry, the database held the last balance.
   */
  lemma FirstLoadIsCurrentExactly(ops: seq<Op>, op: Op, db: map<string, int>)
    requires After(ops, db).Loads(op) && Faithful(ops + [op], db)
    ensures var w := After(ops, db); var filled := w.Filled(op);
      (forall key :: Has(filled, key) ==> Some(Get(filled, key).value.balance) == LastValue(ops, db, key))
      <==> forall key :: key in w.db && !Has(w.entries, key) ==> LastValue(ops, db, key) == LastPersisted(ops, db, key)
  {
    var w, all := After(ops, db), ops + [op];
    assert all[..|ops|] == ops;
    assert RowsOf(op.rows.value, w.db);
    FaithfulPrefix(all, db);
    EntriesAreSupplied(ops, db);
    forall key | Has(w.entries, key) ensures Some(Get(w.entries, key).value.balance) == LastValue(ops, db, key) {
      SourceIsLastExactly(ops, db, key);
      NothingIsStaleBeforeTheLoad(ops, db, key);
    }
    LoadIsCurrentExactly(w.entries, op.rows.value, ops, db, w.db);
    forall key | key in w.db ensures LastPersisted(ops, db, key) == Some(w.db[key]) {
      DatabaseHoldsLastPersisted(ops, db, key);
    }
  }

  // ----- a history with a stale load -----

  lemma OneEntry(key: string, slot: Slot, now: int)
    ensures var entries := [(key, slot)];
      && Put([], key, slot) == entries && !Evicts([], key)
      && FreshOnes(entries, now) == (if IsFresh(slot, now) then entries else [])
      && Get(entries, key) == Some(slot) && !Has([], key)
  {
    assert [(key, slot)][..0] == [];
  }

  /** A write that does not persist is lost when its entry expires before the first read loads the older balance. */
  lemma UnpersistedWriteIsLost(key: string)
    ensures var late := TTL_MS + 1;
      var ops, op := [Write(key, 2, 0, false), Sweep(late)], Read(key, late, Some([Row(key, 1, late)]));
      var db := map[key := 1];
      && Faithful(ops + [op], db)
      && After(ops, db).Answer(op) == Some(1) && LastValue(ops, db, key) == Some(2)
  {
    var late, db := TTL_MS + 1, map[key := 1];
    var write, row := Write(key, 2, 0, false), Row(key, 1, late);
    var ops, op := [write, Sweep(late)], Read(key, late, Some([row]));
    var all := ops + [op];
    assert ops[..1] == [write] && [write][..0] == [] && all[..0] == [] && all[..1] == [write] && all[..2] == ops;
    OneEntry(key, Slot(2, 0), late);
    assert After([], db) == World([], false, db);
    assert After([write], db) == World([(key, Slot(2, 0))], false, db);
    assert After(ops, db) == World([], false, db);
    OneEntry(key, Slot(1, late), late);
    assert [row][..0] == [] && AddMissing([], [row]) == [(key, Slot(1, late))];
    assert FirstRow([row], key) == Some(row) && RowsOf([row], db);
    forall i | 0 <= i < |all| && After(all[..i], db).Loads(all[i]) ensures i == 2 {
    }
    assert LastValue([write], db, key) == Some(2);
  }
}
