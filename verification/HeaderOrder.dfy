/**
 Reordering of header and body fields (open-sse/config/cliFingerprints.ts). `lower` is the
 case folding of names; fields of a body are compared as they are.
 */
module HeaderOrder {
  import opened JsObject

  type Folding = string -> string

  function Exact(name: string): string { name }

  // ----- positions -----

  /** The first position of a folded name, or the length when there is none. */
  function Position(lower: Folding, names: seq<string>, name: string): (i: nat)
    ensures i <= |names| && (i < |names| ==> lower(names[i]) == name)
    ensures forall k :: 0 <= k < i ==> lower(names[k]) != name
  {
    if names == [] then 0
    else
      var n := |names| - 1;
      var i := Position(lower, names[..n], name);
      if i < n then i else if lower(names[n]) == name then n else n + 1
  }

  lemma PositionSnoc(lower: Folding, names: seq<string>, last: string, name: string)
    ensures Position(lower, names + [last], name)
         == var i := Position(lower, names, name);
            if i < |names| then i else if lower(last) == name then |names| else |names| + 1
  {
    assert (names + [last])[..|names|] == names;
  }

  lemma KeysSnoc<V>(fields: Fields<V>, e: (string, V))
    ensures Keys(fields + [e]) == Keys(fields) + [e.0]
  {
  }

  function Named<V>(lower: Folding, fields: Fields<V>, name: string): (i: nat)
    ensures i <= |fields| && (i < |fields| ==> lower(fields[i].0) == name)
    ensures forall k :: 0 <= k < i ==> lower(fields[k].0) != name
  {
    var i := Position(lower, Keys(fields), name);
    assert forall k :: 0 <= k < i ==> fields[k].0 == Keys(fields)[k] && lower(Keys(fields)[k]) != name;
    i
  }

  // ----- lists in ascending order of a rank -----

  ghost predicate Ascending<V>(rank: string -> nat, r: Fields<V>) {
    forall i, j :: 0 <= i < j < |r| ==> rank(r[i].0) < rank(r[j].0)
  }

  /** Taking one entry out leaves the others, none of which has its rank. */
  lemma Without<V>(rank: string -> nat, rest: Fields<V>, k: nat)
    requires k < |rest| && Ascending(rank, rest)
    ensures var r := rest[..k] + rest[k + 1..];
      && Ascending(rank, r)
      && forall i :: 0 <= i < |r| ==> r[i] in rest && rank(r[i].0) != rank(rest[k].0)
  {
    var r := rest[..k] + rest[k + 1..];
    forall i | 0 <= i < |r| ensures r[i] == rest[if i < k then i else i + 1] {
    }
  }

  lemma WithoutHolds<V>(rest: Fields<V>, k: nat)
    requires k < |rest|
    ensures forall e :: e in rest <==> e == rest[k] || e in rest[..k] + rest[k + 1..]
  {
    assert rest == rest[..k] + [rest[k]] + rest[k + 1..];
  }

  lemma HasMember<T>(s: seq<T>)
    ensures s != [] ==> exists e :: e in s
  {
    if s != [] { assert s[0] in s; }
  }

  lemma AscendingSnoc<V>(rank: string -> nat, r: Fields<V>, e: (string, V))
    requires Ascending(rank, r) && forall i :: 0 <= i < |r| ==> rank(r[i].0) < rank(e.0)
    ensures Ascending(rank, r + [e])
  {
  }

  /** Two ascending lists with the same members are equal. */
  lemma {:induction false} AscendingUnique<V(!new)>(rank: string -> nat, r: Fields<V>, s: Fields<V>)
    requires Ascending(rank, r) && Ascending(rank, s)
    requires forall e :: e in r <==> e in s
    ensures r == s
  {
    HasMember(r);
    HasMember(s);
    if r == [] {
    } else {
      var m, n := |r| - 1, |s| - 1;
      assert r[m] in r && s[|s| - 1] in s;
      var k :| 0 <= k < |s| && s[k] == r[m];
      var l :| 0 <= l < |r| && r[l] == s[n];
      assert k == n && l == m;
      forall e ensures e in r[..m] <==> e in s[..n] {
        if e in r[..m] { assert e in r; assert e in s; }
        if e in s[..n] { assert e in s; assert e in r; }
      }
      AscendingUnique(rank, r[..m], s[..n]);
    }
  }

  // ----- the two steps -----

  /** One entry in the map of folded names: a known name keeps its place and takes the new entry. */
  function Enter<V>(lower: Folding, entries: Fields<V>, e: (string, V)): Fields<V> {
    var i := Named(lower, entries, lower(e.0));
    if i < |entries| then entries[i := e] else entries + [e]
  }

  function Latest<V>(lower: Folding, fields: Fields<V>): Fields<V> {
    if fields == [] then [] else Enter(lower, Latest(lower, fields[..|fields| - 1]), fields[|fields| - 1])
  }

  datatype Picked<V> = Picked(result: Fields<V>, rest: Fields<V>)

  function PickOne<V>(lower: Folding, p: Picked<V>, name: string): Picked<V> {
    var i := Named(lower, p.rest, lower(name));
    if i == |p.rest| then p else Picked(p.result + [p.rest[i]], p.rest[..i] + p.rest[i + 1..])
  }

  function Pick<V>(lower: Folding, entries: Fields<V>, order: seq<string>): Picked<V> {
    if order == [] then Picked([], entries)
    else PickOne(lower, Pick(lower, entries, order[..|order| - 1]), order[|order| - 1])
  }

  function Ordered<V>(lower: Folding, fields: Fields<V>, order: seq<string>): Fields<V> {
    var p := Pick(lower, Latest(lower, fields), order);
    p.result + p.rest
  }

  // ----- what they give -----

  /** `e` is the last field of its name. */
  ghost predicate IsLast<V>(lower: Folding, fields: Fields<V>, e: (string, V)) {
    exists i :: 0 <= i < |fields| && fields[i] == e && forall j :: i < j < |fields| ==> lower(fields[j].0) != lower(e.0)
  }

  lemma LastSnoc<V>(lower: Folding, fields: Fields<V>, last: (string, V), e: (string, V))
    ensures IsLast(lower, fields + [last], e)
        <==> e == last || (IsLast(lower, fields, e) && lower(e.0) != lower(last.0))
  {
    var all := fields + [last];
    if e == last {
      assert all[|fields|] == e;
    } else if IsLast(lower, fields, e) && lower(e.0) != lower(last.0) {
      var i :| 0 <= i < |fields| && fields[i] == e && forall j :: i < j < |fields| ==> lower(fields[j].0) != lower(e.0);
      assert all[i] == e;
    }
    if e != last && IsLast(lower, all, e) {
      var i :| 0 <= i < |all| && all[i] == e && forall j :: i < j < |all| ==> lower(all[j].0) != lower(e.0);
      assert fields[i] == e && all[|fields|] == last;
      forall j | i < j < |fields| ensures lower(fields[j].0) != lower(e.0) {
        assert all[j] == fields[j];
      }
    }
  }

  /** Entries are kept in the order in which their names first appear in `names`. */
  ghost predicate Increasing<V>(lower: Folding, names: seq<string>, entries: Fields<V>) {
    forall i, j :: 0 <= i < j < |entries|
      ==> Position(lower, names, lower(entries[i].0)) < Position(lower, names, lower(entries[j].0))
  }

  ghost predicate Known<V>(lower: Folding, names: seq<string>, entries: Fields<V>) {
    forall i :: 0 <= i < |entries| ==> Position(lower, names, lower(entries[i].0)) < |names|
  }

  lemma EnterKeepsNames<V>(lower: Folding, entries: Fields<V>, e: (string, V), i: nat)
    requires i < |Enter(lower, entries, e)|
    ensures i < |entries| ==> lower(Enter(lower, entries, e)[i].0) == lower(entries[i].0)
    ensures i >= |entries| ==> Enter(lower, entries, e)[i] == e && Named(lower, entries, lower(e.0)) == |entries|
  {
  }

  /** The place of the i-th entry after `e` was entered. */
  lemma EnterPlace<V>(lower: Folding, names: seq<string>, entries: Fields<V>, e: (string, V), i: nat, r: (string, V))
    requires Known(lower, names, entries)
    requires i < |entries| ==> lower(r.0) == lower(entries[i].0)
    requires i >= |entries| ==> r == e && Position(lower, names, lower(e.0)) == |names|
    ensures Position(lower, names + [e.0], lower(r.0))
         == if i < |entries| then Position(lower, names, lower(entries[i].0)) else |names|
  {
    PositionSnoc(lower, names, e.0, lower(r.0));
  }

  lemma EnterIs<V>(lower: Folding, names: seq<string>, entries: Fields<V>, e: (string, V))
    requires Increasing(lower, names, entries) && Known(lower, names, entries)
    requires Position(lower, names, lower(e.0)) < |names| <==> Named(lower, entries, lower(e.0)) < |entries|
    ensures Increasing(lower, names + [e.0], Enter(lower, entries, e))
        && Known(lower, names + [e.0], Enter(lower, entries, e))
  {
    var r, names' := Enter(lower, entries, e), names + [e.0];
    forall i | 0 <= i < |r| ensures Position(lower, names', lower(r[i].0)) < |names'| {
      EnterKeepsNames(lower, entries, e, i);
      EnterPlace(lower, names, entries, e, i, r[i]);
    }
    forall i, j | 0 <= i < j < |r|
      ensures Position(lower, names', lower(r[i].0)) < Position(lower, names', lower(r[j].0))
    {
      EnterKeepsNames(lower, entries, e, i);
      EnterPlace(lower, names, entries, e, i, r[i]);
      EnterKeepsNames(lower, entries, e, j);
      EnterPlace(lower, names, entries, e, j, r[j]);
    }
  }

  lemma EnterHolds<V>(lower: Folding, names: seq<string>, entries: Fields<V>, e: (string, V), x: (string, V))
    requires Increasing(lower, names, entries)
    ensures x in Enter(lower, entries, e) <==> x == e || (x in entries && lower(x.0) != lower(e.0))
  {
    var r, k := Enter(lower, entries, e), Named(lower, entries, lower(e.0));
    assert r[k] == e;
    if x in entries {
      var i :| 0 <= i < |entries| && entries[i] == x;
      assert i != k ==> r[i] == x;
    }
  }

  lemma EnterNames<V>(lower: Folding, entries: Fields<V>, e: (string, V), name: string)
    ensures Named(lower, Enter(lower, entries, e), name) < |Enter(lower, entries, e)|
      <==> name == lower(e.0) || Named(lower, entries, name) < |entries|
  {
    var r, k := Enter(lower, entries, e), Named(lower, entries, lower(e.0));
    assert lower(r[k].0) == lower(e.0);
    var i := Named(lower, entries, name);
    assert i < |entries| ==> lower(r[i].0) == name;
    var j := Named(lower, r, name);
    assert j < |r| && j != k ==> lower(entries[j].0) == name;
  }

  function Place(lower: Folding, names: seq<string>): string -> nat {
    key => Position(lower, names, lower(key))
  }

  /** The map holds the last field of every name, in the order the names first appear. */
  lemma {:induction false} LatestIs<V>(lower: Folding, fields: Fields<V>)
    ensures var r, names := Latest(lower, fields), Keys(fields);
      && Increasing(lower, names, r) && Known(lower, names, r) && Ascending(Place(lower, names), r)
      && (forall e :: e in r <==> IsLast(lower, fields, e))
      && forall name :: Named(lower, r, name) < |r| <==> Position(lower, names, name) < |names|
  {
    if fields == [] {
    } else {
      var init, e := fields[..|fields| - 1], fields[|fields| - 1];
      var entries := Latest(lower, init);
      LatestIs(lower, init);
      KeysSnoc(init, e);
      assert init + [e] == fields;
      EnterIs(lower, Keys(init), entries, e);
      forall x ensures x in Enter(lower, entries, e) <==> IsLast(lower, fields, x) {
        EnterHolds(lower, Keys(init), entries, e, x);
        LastSnoc(lower, init, e, x);
      }
      forall name ensures Named(lower, Enter(lower, entries, e), name) < |Enter(lower, entries, e)|
        <==> Position(lower, Keys(fields), name) < |Keys(fields)| {
        EnterNames(lower, entries, e, name);
        PositionSnoc(lower, Keys(init), e.0, name);
      }
    }
  }

  // ----- picking the listed names -----

  ghost predicate DistinctNames<V>(lower: Folding, fields: Fields<V>) {
    forall i, j :: 0 <= i < j < |fields| ==> lower(fields[i].0) != lower(fields[j].0)
  }

  /** With `rank` the place in the list: what ranks below `n` is picked, by rank; the rest keeps its order. */
  ghost predicate IsPick<V>(rank: string -> nat, first: string -> nat, n: nat, p: Picked<V>) {
    && Ascending(rank, p.result) && (forall i :: 0 <= i < |p.result| ==> rank(p.result[i].0) < n)
    && Ascending(first, p.rest) && forall i :: 0 <= i < |p.rest| ==> rank(p.rest[i].0) >= n
  }

  lemma PickOneIs<V>(lower: Folding, rank: string -> nat, first: string -> nat, n: nat, p: Picked<V>, x: string)
    requires IsPick(rank, first, n, p)
    requires forall key :: rank(key) >= n ==> (rank(key) == n <==> lower(key) == lower(x))
    requires DistinctNames(lower, p.rest)
    ensures var q := PickOne(lower, p, x);
      && IsPick(rank, first, n + 1, q)
      && forall e :: e in p.result || e in p.rest <==> e in q.result || e in q.rest
  {
    var k, q := Named(lower, p.rest, lower(x)), PickOne(lower, p, x);
    if k < |p.rest| {
      AscendingSnoc(rank, p.result, p.rest[k]);
      Without(first, p.rest, k);
      WithoutHolds(p.rest, k);
      forall i | 0 <= i < |q.rest| ensures rank(q.rest[i].0) >= n + 1 {
        assert q.rest[i] == p.rest[if i < k then i else i + 1];
      }
    }
  }

  lemma PlaceIs(lower: Folding, order: seq<string>, n: nat)
    requires n < |order|
    ensures forall key ::
      Place(lower, order)(key) >= n ==> (Place(lower, order)(key) == n <==> lower(key) == lower(order[n]))
  {
    forall key | Place(lower, order)(key) >= n
      ensures Place(lower, order)(key) == n <==> lower(key) == lower(order[n])
    {
      assert Place(lower, order)(key) == Position(lower, order, lower(key));
    }
  }

  lemma PlacedAreDistinct<V>(lower: Folding, names: seq<string>, r: Fields<V>)
    requires Ascending(Place(lower, names), r)
    ensures DistinctNames(lower, r)
  {
    var place := Place(lower, names);
    forall i, j | 0 <= i < j < |r| ensures lower(r[i].0) != lower(r[j].0) {
      assert place(r[i].0) < place(r[j].0);
    }
  }

  /** One more name of the list is picked. */
  lemma PickNext<V>(lower: Folding, names: seq<string>, order: seq<string>, n: nat, p: Picked<V>)
    requires n < |order| && IsPick(Place(lower, order), Place(lower, names), n, p)
    ensures var q := PickOne(lower, p, order[n]);
      && IsPick(Place(lower, order), Place(lower, names), n + 1, q)
      && forall e :: e in p.result || e in p.rest <==> e in q.result || e in q.rest
  {
    PlaceIs(lower, order, n);
    PlacedAreDistinct(lower, names, p.rest);
    PickOneIs(lower, Place(lower, order), Place(lower, names), n, p, order[n]);
  }

  lemma {:induction false} PickIs<V>(lower: Folding, names: seq<string>, entries: Fields<V>, order: seq<string>, n: nat)
    requires Ascending(Place(lower, names), entries) && n <= |order|
    ensures var p := Pick(lower, entries, order[..n]);
      && IsPick(Place(lower, order), Place(lower, names), n, p)
      && forall e :: e in entries <==> e in p.result || e in p.rest
  {
    if n == 0 {
    } else {
      PickIs(lower, names, entries, order, n - 1);
      assert order[..n][..n - 1] == order[..n - 1];
      PickNext(lower, names, order, n - 1, Pick(lower, entries, order[..n - 1]));
    }
  }

  // ----- the result and nothing else -----

  /** Listed names come first, by their place in the list; the others by their first appearance. */
  function Rank(lower: Folding, order: seq<string>, names: seq<string>): string -> nat {
    key =>
      var i := Position(lower, order, lower(key));
      if i < |order| then i else |order| + Position(lower, names, lower(key))
  }

  lemma RankIs(lower: Folding, order: seq<string>, names: seq<string>, key: string)
    ensures Rank(lower, order, names)(key)
         == var i := Place(lower, order)(key); if i < |order| then i else |order| + Place(lower, names)(key)
  {
  }

  /** The last field of every name, ranked. */
  ghost predicate IsOrdered<V(!new)>(lower: Folding, fields: Fields<V>, order: seq<string>, r: Fields<V>) {
    && Ascending(Rank(lower, order, Keys(fields)), r)
    && forall e :: e in r <==> IsLast(lower, fields, e)
  }

  lemma PickIsRanked<V>(rank: string -> nat, first: string -> nat, n: nat, p: Picked<V>, both: string -> nat)
    requires IsPick(rank, first, n, p)
    requires forall key :: both(key) == if rank(key) < n then rank(key) else n + first(key)
    ensures Ascending(both, p.result + p.rest)
  {
  }

  lemma OrderedHolds<V>(lower: Folding, fields: Fields<V>, order: seq<string>)
    ensures forall e :: e in Ordered(lower, fields, order) <==> IsLast(lower, fields, e)
  {
    LatestIs(lower, fields);
    PickIs(lower, Keys(fields), Latest(lower, fields), order, |order|);
    assert order[..|order|] == order;
  }

  lemma OrderedIsRanked<V>(lower: Folding, fields: Fields<V>, order: seq<string>)
    ensures Ascending(Rank(lower, order, Keys(fields)), Ordered(lower, fields, order))
  {
    var entries, names := Latest(lower, fields), Keys(fields);
    LatestIs(lower, fields);
    PickIs(lower, names, entries, order, |order|);
    assert order[..|order|] == order;
    forall key { RankIs(lower, order, names, key); }
    PickIsRanked(Place(lower, order), Place(lower, names), |order|, Pick(lower, entries, order),
        Rank(lower, order, names));
  }

  lemma OrderedIs<V(!new)>(lower: Folding, fields: Fields<V>, order: seq<string>)
    ensures IsOrdered(lower, fields, order, Ordered(lower, fields, order))
  {
    OrderedHolds(lower, fields, order);
    OrderedIsRanked(lower, fields, order);
  }

  /**
   The reordering is the one list that holds the last field of every name, listed names first
   in list order and the rest in the order in which their names first appear.
   */
  lemma OrderedExactly<V(!new)>(lower: Folding, fields: Fields<V>, order: seq<string>, r: Fields<V>)
    ensures IsOrdered(lower, fields, order, r) <==> r == Ordered(lower, fields, order)
  {
    OrderedIs(lower, fields, order);
    if IsOrdered(lower, fields, order, r) {
      AscendingUnique(Rank(lower, order, Keys(fields)), r, Ordered(lower, fields, order));
    }
  }

  lemma RankedAreDistinct<V>(lower: Folding, order: seq<string>, names: seq<string>, r: Fields<V>)
    requires Ascending(Rank(lower, order, names), r)
    ensures DistinctNames(lower, r)
  {
    var rank := Rank(lower, order, names);
    forall i, j | 0 <= i < j < |r| ensures lower(r[i].0) != lower(r[j].0) {
      assert rank(r[i].0) < rank(r[j].0);
    }
  }

  lemma LastOfDistinct<V>(lower: Folding, fields: Fields<V>, e: (string, V))
    requires DistinctNames(lower, fields)
    ensures IsLast(lower, fields, e) <==> e in fields
  {
    if e in fields {
      var i :| 0 <= i < |fields| && fields[i] == e;
      assert forall j :: i < j < |fields| ==> lower(fields[j].0) != lower(e.0);
    }
  }

  /** Among its own names, a list with distinct names stands at its own positions. */
  lemma OwnRank<V>(lower: Folding, order: seq<string>, names: seq<string>, r: Fields<V>, i: nat)
    requires DistinctNames(lower, r) && i < |r|
    ensures var rank := Rank(lower, order, names)(r[i].0);
      Rank(lower, order, Keys(r))(r[i].0) == if rank < |order| then rank else |order| + i
  {
    assert Keys(r)[i] == r[i].0;
    assert forall k :: 0 <= k < i ==> Keys(r)[k] == r[k].0;
  }

  /** Ordering an ordered list again changes nothing. */
  lemma OrderedTwice<V(!new)>(lower: Folding, fields: Fields<V>, order: seq<string>)
    ensures Ordered(lower, Ordered(lower, fields, order), order) == Ordered(lower, fields, order)
  {
    var r := Ordered(lower, fields, order);
    OrderedIs(lower, fields, order);
    RankedAreDistinct(lower, order, Keys(fields), r);
    forall e ensures e in r <==> IsLast(lower, r, e) {
      LastOfDistinct(lower, r, e);
    }
    var rank, own := Rank(lower, order, Keys(fields)), Rank(lower, order, Keys(r));
    forall i, j | 0 <= i < j < |r| ensures own(r[i].0) < own(r[j].0) {
      OwnRank(lower, order, Keys(fields), r, i);
      OwnRank(lower, order, Keys(fields), r, j);
      assert rank(r[i].0) < rank(r[j].0);
    }
    OrderedExactly(lower, r, order, r);
  }

  // ----- permutations -----

  lemma {:induction false} CountOnce<V>(lower: Folding, fields: Fields<V>, e: (string, V))
    requires DistinctNames(lower, fields)
    ensures multiset(fields)[e] == if e in fields then 1 else 0
  {
    if fields == [] {
    } else {
      var n := |fields| - 1;
      var init, last := fields[..n], fields[n];
      CountOnce(lower, init, e);
      assert fields == init + [last];
      assert last !in init;
    }
  }

  lemma CountTwice<T>(s: seq<T>, i: nat, j: nat)
    requires i < j < |s| && s[i] == s[j]
    ensures multiset(s)[s[i]] >= 2
  {
    assert s == s[..j] + s[j..] && s[..j][i] == s[i] && s[j..][0] == s[i];
  }

  /** The reordering keeps all fields exactly when no two names are the same after folding. */
  lemma PermutationExactly<V(!new)>(lower: Folding, fields: Fields<V>, order: seq<string>)
    ensures multiset(Ordered(lower, fields, order)) == multiset(fields) <==> DistinctNames(lower, fields)
  {
    var r := Ordered(lower, fields, order);
    OrderedIs(lower, fields, order);
    RankedAreDistinct(lower, order, Keys(fields), r);
    if DistinctNames(lower, fields) {
      forall e ensures multiset(r)[e] == multiset(fields)[e] {
        CountOnce(lower, r, e);
        CountOnce(lower, fields, e);
        LastOfDistinct(lower, fields, e);
      }
    } else if multiset(r) == multiset(fields) {
      var i, j :| 0 <= i < j < |fields| && lower(fields[i].0) == lower(fields[j].0);
      assert fields[i] in multiset(fields) && fields[j] in multiset(fields);
      assert fields[i] in r && fields[j] in r;
      CountTwice(fields, i, j);
      CountOnce(lower, r, fields[i]);
    }
  }

  // ----- the operations -----

  /** A field that was not picked has a key of its own. */
  lemma PickedKeyIsNew<V>(rank: string -> nat, first: string -> nat, n: nat, p: Picked<V>, i: nat)
    requires IsPick(rank, first, n, p) && i < |p.rest|
    ensures forall k :: 0 <= k < |p.result| ==> p.result[k].0 != p.rest[i].0
    ensures forall k :: 0 <= k < i ==> p.rest[k].0 != p.rest[i].0
  {
    forall k | 0 <= k < |p.result| ensures p.result[k].0 != p.rest[i].0 {
      assert rank(p.result[k].0) < rank(p.rest[i].0);
    }
    forall k | 0 <= k < i ensures p.rest[k].0 != p.rest[i].0 {
      assert first(p.rest[k].0) < first(p.rest[i].0);
    }
  }

  /** The case-insensitive lookup. */
  method HeaderMap<V>(lower: Folding, headers: Fields<V>) returns (headerMap: Fields<V>)
    ensures headerMap == Latest(lower, headers)
  {
    headerMap := [];
    for n := 0 to |headers|
      invariant headerMap == Latest(lower, headers[..n])
    {
      assert headers[..n + 1][..n] == headers[..n];
      var i := Named(lower, headerMap, lower(headers[n].0));
      if i < |headerMap| {
        headerMap := headerMap[i := headers[n]];
      } else {
        headerMap := headerMap + [headers[n]];
      }
    }
    assert headers[..|headers|] == headers;
  }

  /** The loop that stores the headers that were not listed. */
  method StoreHeaders<V>(ghost rank: string -> nat, ghost first: string -> nat, ghost n: nat, p: Picked<V>)
    returns (result: Fields<V>)
    requires IsPick(rank, first, n, p)
    ensures result == p.result + p.rest
  {
    result := p.result;
    for k := 0 to |p.rest|
      invariant result == p.result + p.rest[..k]
    {
      PickedKeyIsNew(rank, first, n, p, k);
      PutNew(result, p.rest[k].0, p.rest[k].1);
      result := Put(result, p.rest[k].0, p.rest[k].1);
    }
  }

  /** One round of the loop over the listed names. */
  lemma HeadersStep<V>(lower: Folding, names: seq<string>, entries: Fields<V>, order: seq<string>, n: nat, p: Picked<V>)
    requires Ascending(Place(lower, names), entries) && n < |order| && p == Pick(lower, entries, order[..n])
    ensures var i, q := Named(lower, p.rest, lower(order[n])), Pick(lower, entries, order[..n + 1]);
      q == if i < |p.rest| then Picked(Put(p.result, p.rest[i].0, p.rest[i].1), p.rest[..i] + p.rest[i + 1..]) else p
  {
    assert order[..n + 1][..n] == order[..n];
    var i := Named(lower, p.rest, lower(order[n]));
    if i < |p.rest| {
      PickIs(lower, names, entries, order, n);
      PickedKeyIsNew(Place(lower, order), Place(lower, names), n, p, i);
      PutNew(p.result, p.rest[i].0, p.rest[i].1);
    }
  }

  method OrderHeaders<V>(lower: Folding, headers: Fields<V>, order: seq<string>) returns (result: Fields<V>)
    ensures result == if order == [] then headers else Ordered(lower, headers, order)
  {
    if order == [] { return headers; }
    var headerMap := HeaderMap(lower, headers);
    ghost var entries, names := headerMap, Keys(headers);
    LatestIs(lower, headers);
    result := [];
    for n := 0 to |order|
      invariant Picked(result, headerMap) == Pick(lower, entries, order[..n])
    {
      HeadersStep(lower, names, entries, order, n, Picked(result, headerMap));
      var i := Named(lower, headerMap, lower(order[n]));
      if i < |headerMap| {
        result := Put(result, headerMap[i].0, headerMap[i].1);
        headerMap := headerMap[..i] + headerMap[i + 1..];
      }
    }
    assert order[..|order|] == order;
    PickIs(lower, names, entries, order, |order|);
    result := StoreHeaders(Place(lower, order), Place(lower, names), |order|, Picked(result, headerMap));
  }

  // ----- body fields -----

  /** `Set.delete` */
  function Delete(keys: seq<string>, key: string): seq<string> {
    var i := Position(Exact, keys, key);
    if i < |keys| then keys[..i] + keys[i + 1..] else keys
  }

  lemma KeysWithout<V>(rest: Fields<V>, i: nat)
    requires i < |rest|
    ensures Keys(rest[..i] + rest[i + 1..]) == Keys(rest)[..i] + Keys(rest)[i + 1..]
  {
  }

  lemma DeleteIs<V>(rest: Fields<V>, name: string)
    ensures Keys(PickOne(Exact, Picked([], rest), name).rest) == Delete(Keys(rest), name)
  {
    var i := Named(Exact, rest, name);
    if i < |rest| {
      KeysWithout(rest, i);
    }
  }

  lemma {:induction false} LatestOfDistinct<V>(fields: Fields<V>)
    requires DistinctKeys(fields)
    ensures Latest(Exact, fields) == fields
  {
    if fields == [] {
    } else {
      LatestOfDistinct(fields[..|fields| - 1]);
    }
  }

  lemma StoreAgain<V>(rank: string -> nat, result: Fields<V>, e: (string, V))
    requires Ascending(rank, result) && e in result
    ensures Put(result, e.0, e.1) == result
  {
    var l :| 0 <= l < |result| && result[l] == e;
    forall i, j | 0 <= i < j < |result| ensures result[i].0 != result[j].0 {
      assert rank(result[i].0) < rank(result[j].0);
    }
    PutAgain(result, l);
  }

  /** Storing a listed field of the object picks it, and does nothing the second time. */
  lemma StoreIsPick<V>(rank: string -> nat, first: string -> nat, n: nat, obj: Fields<V>, p: Picked<V>, name: string,
                       i: nat)
    requires DistinctKeys(obj) && IsPick(rank, first, n, p)
    requires forall e :: e in obj <==> e in p.result || e in p.rest
    requires i == Find(obj, name)
    ensures PickOne(Exact, p, name).result == if i < |obj| then Put(p.result, name, obj[i].1) else p.result
    ensures PickOne(Exact, p, name).rest == p.rest || i < |obj|
  {
    var k := Named(Exact, p.rest, name);
    if k < |p.rest| {
      assert p.rest[k] in obj;
      PickedKeyIsNew(rank, first, n, p, k);
      PutNew(p.result, name, p.rest[k].1);
    } else if i < |obj| {
      assert obj[i] in obj && obj[i] !in p.rest;
      StoreAgain(rank, p.result, obj[i]);
    }
  }

  /** The loop that stores the fields that were not listed. */
  method StoreRemaining<V>(ghost rank: string -> nat, ghost first: string -> nat, ghost n: nat, obj: Fields<V>,
                           ghost p: Picked<V>, picked: Fields<V>, remaining: seq<string>)
    returns (result: Fields<V>)
    requires DistinctKeys(obj) && IsPick(rank, first, n, p) && picked == p.result && remaining == Keys(p.rest)
    requires forall i :: 0 <= i < |p.rest| ==> p.rest[i] in obj
    ensures result == p.result + p.rest
  {
    result := picked;
    for k := 0 to |remaining|
      invariant result == p.result + p.rest[..k]
    {
      PickedKeyIsNew(rank, first, n, p, k);
      PutNew(result, p.rest[k].0, p.rest[k].1);
      assert remaining[k] == p.rest[k].0 && p.rest[k] in obj;
      result := Put(result, remaining[k], obj[Find(obj, remaining[k])].1);
    }
  }

  /** One round of the loop over the listed names. */
  lemma FieldsStep<V>(obj: Fields<V>, order: seq<string>, n: nat, p: Picked<V>)
    requires DistinctKeys(obj) && Ascending(Place(Exact, Keys(obj)), obj) && n < |order|
    requires p == Pick(Exact, obj, order[..n])
    ensures var i, q := Find(obj, order[n]), Pick(Exact, obj, order[..n + 1]);
      && q.result == (if i < |obj| then Put(p.result, order[n], obj[i].1) else p.result)
      && Keys(q.rest) == (if i < |obj| then Delete(Keys(p.rest), order[n]) else Keys(p.rest))
  {
    assert order[..n + 1][..n] == order[..n];
    PickIs(Exact, Keys(obj), obj, order, n);
    StoreIsPick(Place(Exact, order), Place(Exact, Keys(obj)), n, obj, p, order[n], Find(obj, order[n]));
    DeleteIs(p.rest, order[n]);
  }

  method OrderFields<V>(obj: Fields<V>, order: seq<string>) returns (result: Fields<V>)
    requires DistinctKeys(obj)
    ensures result == if order == [] then obj else Ordered(Exact, obj, order)
  {
    if order == [] { return obj; }
    LatestOfDistinct(obj);
    LatestIs(Exact, obj);
    result := [];
    var remaining := Keys(obj);
    ghost var p := Picked([], obj);
    for n := 0 to |order|
      invariant p == Pick(Exact, obj, order[..n]) && result == p.result && remaining == Keys(p.rest)
    {
      FieldsStep(obj, order, n, p);
      p := Pick(Exact, obj, order[..n + 1]);
      var i := Find(obj, order[n]);
      if i < |obj| {
        result := Put(result, order[n], obj[i].1);
        remaining := Delete(remaining, order[n]);
      }
    }
    assert order[..|order|] == order;
    PickIs(Exact, Keys(obj), obj, order, |order|);
    result := StoreRemaining(Place(Exact, order), Place(Exact, Keys(obj)), |order|, obj, p, result, remaining);
  }

  /** A body keeps all its fields, each once. */
  lemma FieldsArePermuted<V(!new)>(obj: Fields<V>, order: seq<string>)
    requires DistinctKeys(obj)
    ensures multiset(Ordered(Exact, obj, order)) == multiset(obj)
    ensures IsOrdered(Exact, obj, order, Ordered(Exact, obj, order))
  {
    PermutationExactly(Exact, obj, order);
    OrderedIs(Exact, obj, order);
  }
}
