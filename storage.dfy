/**
 * The server's in-memory store of packing lists: a map from id to stored list that remembers the
 * order in which ids were first inserted (the iteration order of a JavaScript `Map`).
 *
 * The fresh id (`randomUUID`) and the current time (`new Date()`) are parameters of the operations
 * that need them; a time is an integer instant.
 */
module Storage {
  import opened Wrappers
  import opened Schema

  /** A stored packing list: the insert payload with its text columns resolved to text or null,
      plus the id and the two timestamps the store assigns. */
  datatype PackingList = PackingList(
    id: string,
    name: string,
    cruiseName: Option<string>,
    departureDate: Option<string>,
    cruiseLength: Option<string>,
    destinations: Option<string>,
    cabinType: Option<string>,
    weather: Option<string>,
    notes: Option<string>,
    items: map<string, PackingItem>,
    createdAt: int,
    updatedAt: int)

  // ---------------------------------------------------------------------------------------
  // The record a create stores, and the record an update stores

  /** `value || null`: absent, null and the empty string all become null. */
  function OrNull(v: Nullable): (r: Option<string>)
    ensures r.None? <==> v.Absent? || v.Null? || v == Given("")
    ensures r.Some? ==> v == Given(r.value) && r.value != ""
  {
    if v.Given? && v.text != "" then Some(v.text) else None
  }

  /** The record `createPackingList` builds from a validated payload, a fresh id and the time. */
  function Created(p: InsertList, id: string, now: int): (r: PackingList)
    ensures r.id == id && r.name == p.name && r.items == p.items
    ensures r.createdAt == now && r.updatedAt == now
  {
    PackingList(id, p.name,
      OrNull(p.cruiseName), OrNull(p.departureDate), OrNull(p.cruiseLength), OrNull(p.destinations),
      OrNull(p.cabinType), OrNull(p.weather), OrNull(p.notes),
      p.items, now, now)
  }

  /** No text column of `l` holds the empty string. */
  predicate NoEmptyText(l: PackingList) {
    && l.cruiseName != Some("") && l.departureDate != Some("") && l.cruiseLength != Some("")
    && l.destinations != Some("") && l.cabinType != Some("") && l.weather != Some("")
    && l.notes != Some("")
  }

  /** The stored text column a supplied text field resolves to on create: null unless text that is
      not empty was supplied, and then that text. */
  predicate CreateRule(v: Nullable, stored: Option<string>) {
    if v.Given? && v.text != "" then stored == Some(v.text) else stored == None
  }

  /** A created record keeps name and items, resolves each text column by `CreateRule`, so it never
      stores an empty string, and carries one instant in both timestamps. */
  lemma CreatedFields(p: InsertList, id: string, now: int)
    ensures var r := Created(p, id, now);
      && CreateRule(p.cruiseName, r.cruiseName) && CreateRule(p.departureDate, r.departureDate)
      && CreateRule(p.cruiseLength, r.cruiseLength) && CreateRule(p.destinations, r.destinations)
      && CreateRule(p.cabinType, r.cabinType) && CreateRule(p.weather, r.weather)
      && CreateRule(p.notes, r.notes)
      && NoEmptyText(r) && r.createdAt == r.updatedAt
  {
  }

  /** One supplied field of an update laid over the stored value: absent keeps it, null clears it,
      text replaces it as it is. */
  function Overlay(stored: Option<string>, v: Nullable): (r: Option<string>)
    ensures v.Absent? ==> r == stored
    ensures v.Null? ==> r == None
    ensures v.Given? ==> r == Some(v.text)
  {
    match v
    case Absent => stored
    case Null => None
    case Given(s) => Some(s)
  }

  /** The record `updatePackingList` stores: the existing record with the supplied fields laid over it
      and the update time. */
  function Patched(e: PackingList, u: ListPatch, now: int): (r: PackingList)
    ensures r.id == e.id && r.createdAt == e.createdAt && r.updatedAt == now
    ensures r.name == u.name.GetOr(e.name) && r.items == u.items.GetOr(e.items)
  {
    PackingList(e.id, u.name.GetOr(e.name),
      Overlay(e.cruiseName, u.cruiseName), Overlay(e.departureDate, u.departureDate),
      Overlay(e.cruiseLength, u.cruiseLength), Overlay(e.destinations, u.destinations),
      Overlay(e.cabinType, u.cabinType), Overlay(e.weather, u.weather), Overlay(e.notes, u.notes),
      u.items.GetOr(e.items), e.createdAt, now)
  }

  /** An update that supplies nothing changes only `updatedAt`. */
  lemma EmptyPatchOnlyTouches(e: PackingList, now: int)
    ensures Patched(e, EmptyPatch, now) == e.(updatedAt := now)
  {
  }

  /** A supplied `items` replaces the whole stored map: items not in it are gone afterwards. */
  lemma ItemsReplacedWhole(e: PackingList, u: ListPatch, now: int, k: string)
    requires u.items.Some? && k in e.items && k !in u.items.value
    ensures k !in Patched(e, u, now).items
  {
  }

  /** An update does not resolve the empty string to null as a create does: the same text field ""
      is stored as null by a create and as "" by an update. */
  lemma EmptyTextKeptByUpdate(p: InsertList, id: string, t1: int, t2: int)
    requires p.notes == Given("")
    ensures Created(p, id, t1).notes == None
    ensures Patched(Created(p, id, t1), AsPatch(p), t2).notes == Some("")
  {
  }

  /** Later wins: `u2` laid over `u1`, field by field. */
  function Then(u1: ListPatch, u2: ListPatch): ListPatch {
    ListPatch(
      if u2.name.Some? then u2.name else u1.name,
      LaterField(u1.cruiseName, u2.cruiseName), LaterField(u1.departureDate, u2.departureDate),
      LaterField(u1.cruiseLength, u2.cruiseLength), LaterField(u1.destinations, u2.destinations),
      LaterField(u1.cabinType, u2.cabinType), LaterField(u1.weather, u2.weather),
      LaterField(u1.notes, u2.notes),
      if u2.items.Some? then u2.items else u1.items)
  }

  function LaterField(v1: Nullable, v2: Nullable): Nullable {
    if v2.Absent? then v1 else v2
  }

  /** Two updates in a row store what the single combined update stores at the later time. */
  lemma PatchedThen(e: PackingList, u1: ListPatch, u2: ListPatch, t1: int, t2: int)
    ensures Patched(Patched(e, u1, t1), u2, t2) == Patched(e, Then(u1, u2), t2)
  {
  }

  /** Repeating an update changes nothing but the time. */
  lemma PatchedIdempotent(e: PackingList, u: ListPatch, t1: int, t2: int)
    ensures Patched(Patched(e, u, t1), u, t2) == Patched(e, u, t2)
  {
    PatchedThen(e, u, u, t1, t2);
    assert Then(u, u) == u;
  }

  // ---------------------------------------------------------------------------------------
  // Insertion order

  /** No id occurs twice in `s`. */
  predicate Distinct(s: seq<string>) {
    forall i, j :: 0 <= i < j < |s| ==> s[i] != s[j]
  }

  /** `s` without `x`, the rest in order. */
  function Without(s: seq<string>, x: string): (r: seq<string>)
    ensures forall y :: y in r <==> y in s && y != x
    ensures x !in s ==> r == s
    ensures Distinct(s) ==> Distinct(r)
    decreases |s|
  {
    if |s| == 0 then []
    else if s[0] == x then Without(s[1..], x)
    else
      var rest := Without(s[1..], x);
      var r := [s[0]] + rest;
      assert Distinct(s) ==> Distinct(r) by {
        if Distinct(s) {
          assert Distinct(s[1..]);
          assert s[0] !in s[1..];
          forall i, j | 0 <= i < j < |r| ensures r[i] != r[j] {
            if i == 0 { assert r[j] in rest; } else { assert r[i] == rest[i - 1] && r[j] == rest[j - 1]; }
          }
        }
      }
      r
  }

  /** Removal distributes over concatenation, so the ids left keep their relative order. */
  lemma {:induction false} WithoutConcat(s: seq<string>, t: seq<string>, x: string)
    ensures Without(s + t, x) == Without(s, x) + Without(t, x)
    decreases |s|
  {
    if |s| > 0 {
      assert (s + t)[0] == s[0];
      assert (s + t)[1..] == s[1..] + t;
      WithoutConcat(s[1..], t, x);
    } else {
      assert s + t == t;
    }
  }

  /** In a duplicate-free order, removing the id at position i leaves the ids before it and after it,
      in order. */
  lemma WithoutAt(s: seq<string>, i: int)
    requires Distinct(s) && 0 <= i < |s|
    ensures Without(s, s[i]) == s[..i] + s[i + 1..]
  {
    NotBefore(s, i);
    NotAfter(s, i);
    WithoutSplice(s, i);
  }

  /** Removing an id that occurs only at position i leaves what comes before it followed by what comes
      after it. */
  lemma WithoutSplice(s: seq<string>, i: int)
    requires 0 <= i < |s| && s[i] !in s[..i] && s[i] !in s[i + 1..]
    ensures Without(s, s[i]) == s[..i] + s[i + 1..]
  {
    var x, a, b := s[i], s[..i], s[i + 1..];
    assert s[i..] == [x] + b;
    assert s == a + s[i..];
    WithoutConcat(a, [x] + b, x);
    WithoutConcat([x], b, x);
    assert Without([x], x) == Without([], x);
  }

  lemma NotBefore(s: seq<string>, i: int)
    requires Distinct(s) && 0 <= i < |s|
    ensures s[i] !in s[..i]
  {
    var a := s[..i];
    forall k | 0 <= k < |a| ensures a[k] != s[i] {
      assert a[k] == s[k];
    }
  }

  lemma NotAfter(s: seq<string>, i: int)
    requires Distinct(s) && 0 <= i < |s|
    ensures s[i] !in s[i + 1..]
  {
    var b := s[i + 1..];
    forall k | 0 <= k < |b| ensures b[k] != s[i] {
      assert b[k] == s[i + 1 + k];
    }
  }

  /** Deleting an id that was just appended restores the previous order. */
  lemma WithoutAppended(s: seq<string>, x: string)
    requires x !in s
    ensures Without(s + [x], x) == s
    decreases |s|
  {
    if |s| > 0 {
      assert (s + [x])[1..] == s[1..] + [x];
      WithoutAppended(s[1..], x);
    }
  }

  /** A sequence of distinct ids has as many elements as its set. */
  lemma {:induction false} DistinctCard(s: seq<string>)
    requires Distinct(s)
    ensures |set x | x in s| == |s|
    decreases |s|
  {
    if |s| > 0 {
      var t := s[1..];
      assert Distinct(t);
      DistinctCard(t);
      assert (set x | x in s) == (set x | x in t) + {s[0]};
      assert s[0] !in t;
    }
  }

  // ---------------------------------------------------------------------------------------
  // MemStorage

  class MemStorage {
    /** The stored lists by id. */
    var lists: map<string, PackingList>
    /** The ids in the order they were first inserted. */
    var order: seq<string>

    /** Each stored id occurs once in `order`, nothing else does, and a list is stored under its own id. */
    ghost predicate Valid()
      reads this
    {
      && Distinct(order)
      && (forall k :: k in lists <==> k in order)
      && (forall k :: k in lists ==> lists[k].id == k)
    }

    /** The stored lists in insertion order. */
    function Values(): (r: seq<PackingList>)
      reads this
      requires Valid()
      ensures |r| == |order| && forall i :: 0 <= i < |order| ==> r[i] == lists[order[i]]
    {
      var m, s := lists, order;
      assert forall i :: 0 <= i < |s| ==> s[i] in m;
      seq(|s|, i requires 0 <= i < |s| && s[i] in m => m[s[i]])
    }

    constructor()
      ensures Valid() && lists == map[] && order == []
    {
      lists := map[];
      order := [];
    }

    /** `getPackingList`: the list stored under `id`, if any. */
    method Get(id: string) returns (r: Option<PackingList>)
      requires Valid()
      ensures r.Some? <==> id in lists
      ensures r.Some? ==> r.value == lists[id] && r.value.id == id
    {
      if id in lists {
        r := Some(lists[id]);
      } else {
        r := None;
      }
    }

    /** `createPackingList`: stores the created record under the fresh id, at the end of the order. */
    method Create(p: InsertList, id: string, now: int) returns (r: PackingList)
      requires Valid() && id !in lists
      modifies this
      ensures Valid()
      ensures r == Created(p, id, now)
      ensures lists == old(lists)[id := r] && order == old(order) + [id]
    {
      r := Created(p, id, now);
      lists := lists[id := r];
      order := order + [id];
    }

    /** `updatePackingList`: lays the update over the stored record, which keeps its place in the
        order; an unknown id is not-found and changes nothing. */
    method Update(id: string, u: ListPatch, now: int) returns (r: Option<PackingList>)
      requires Valid()
      modifies this
      ensures Valid()
      ensures id !in old(lists) ==> r == None && lists == old(lists)
      ensures id in old(lists) ==> r == Some(Patched(old(lists)[id], u, now)) && lists == old(lists)[id := r.value]
      ensures order == old(order)
    {
      if id !in lists {
        return None;
      }
      var updated := Patched(lists[id], u, now);
      lists := lists[id := updated];
      r := Some(updated);
    }

    /** `deletePackingList`: removes the entry and reports whether there was one. */
    method Delete(id: string) returns (deleted: bool)
      requires Valid()
      modifies this
      ensures Valid()
      ensures deleted <==> id in old(lists)
      ensures lists == old(lists) - {id} && order == Without(old(order), id)
    {
      deleted := id in lists;
      lists := lists - {id};
      order := Without(order, id);
    }

    /** `getAllPackingLists`: every stored list once, in insertion order. */
    method GetAll() returns (r: seq<PackingList>)
      requires Valid()
      ensures r == Values()
      ensures |r| == |lists|
      ensures forall k :: k in lists ==> exists i :: 0 <= i < |r| && r[i] == lists[k]
      ensures forall i :: 0 <= i < |r| ==> r[i].id in lists && lists[r[i].id] == r[i]
      ensures forall i, j :: 0 <= i < j < |r| ==> r[i].id != r[j].id
    {
      r := Values();
      InOrder(lists, order, r);
    }
  }

  /** A map whose keys are the elements of a sequence of distinct ids has one entry per element. */
  lemma KeysCard<V>(m: map<string, V>, s: seq<string>)
    requires Distinct(s) && forall k :: k in m <==> k in s
    ensures |m| == |s|
  {
    assert m.Keys == set x | x in s;
    DistinctCard(s);
  }

  /** The values of a map listed along a sequence of its distinct keys: every list once, each under
      the id it is stored under. */
  lemma InOrder(m: map<string, PackingList>, s: seq<string>, r: seq<PackingList>)
    requires Distinct(s) && (forall k :: k in m <==> k in s) && (forall k :: k in m ==> m[k].id == k)
    requires |r| == |s| && forall i :: 0 <= i < |s| ==> r[i] == m[s[i]]
    ensures |r| == |m|
    ensures forall k :: k in m ==> exists i :: 0 <= i < |r| && r[i] == m[k]
    ensures forall i :: 0 <= i < |r| ==> r[i].id in m && m[r[i].id] == r[i]
    ensures forall i, j :: 0 <= i < j < |r| ==> r[i].id != r[j].id
  {
    KeysCard(m, s);
    InOrderCovers(m, s, r);
    InOrderIds(m, s, r);
  }

  lemma InOrderCovers(m: map<string, PackingList>, s: seq<string>, r: seq<PackingList>)
    requires forall k :: k in m <==> k in s
    requires |r| == |s| && forall i :: 0 <= i < |s| ==> r[i] == m[s[i]]
    ensures forall k :: k in m ==> exists i :: 0 <= i < |r| && r[i] == m[k]
  {
    forall k | k in m
      ensures exists i :: 0 <= i < |r| && r[i] == m[k]
    {
      var i :| 0 <= i < |s| && s[i] == k;
      assert r[i] == m[k];
    }
  }

  lemma InOrderIds(m: map<string, PackingList>, s: seq<string>, r: seq<PackingList>)
    requires Distinct(s) && (forall k :: k in s ==> k in m) && (forall k :: k in m ==> m[k].id == k)
    requires |r| == |s| && forall i :: 0 <= i < |s| ==> r[i] == m[s[i]]
    ensures forall i :: 0 <= i < |r| ==> r[i].id == s[i] && r[i].id in m && m[r[i].id] == r[i]
    ensures forall i, j :: 0 <= i < j < |r| ==> r[i].id != r[j].id
  {
  }

  /** Creating and then deleting under the fresh id, described on the store's state, gives back the
      state before the create. */
  lemma CreateThenDelete(lists: map<string, PackingList>, order: seq<string>, l: PackingList)
    requires l.id !in lists && l.id !in order
    ensures lists[l.id := l] - {l.id} == lists
    ensures Without(order + [l.id], l.id) == order
  {
    WithoutAppended(order, l.id);
  }
}
