/**
 Confirmed memories behind a cache: the repository, a fail-open JSON cache, and the service that reads
 through the one and falls back to the other. Calls do not overlap here; MemoryTiming drops that.
 */
module Memory {
  import opened Wrappers

  datatype User = User(tenantId: string, operatorId: string)

  datatype Item = Item(memoryId: string, user: User, key: string, value: string, confirmedAt: int)

  /** What goes into the cache: the owner is left out, and put back from the caller's context. */
  datatype CachedItem = CachedItem(memoryId: string, key: string, value: string, confirmedAt: int)

  /** A cached JSON value: a list of well-formed items, or anything else. */
  datatype Json = Items(items: seq<CachedItem>) | Garbage

  function Encode(i: Item): CachedItem {
    CachedItem(i.memoryId, i.key, i.value, i.confirmedAt)
  }

  function Decode(user: User, c: CachedItem): Item {
    Item(c.memoryId, user, c.key, c.value, c.confirmedAt)
  }

  function EncodeAll(xs: seq<Item>): seq<CachedItem> {
    seq(|xs|, i requires 0 <= i < |xs| => Encode(xs[i]))
  }

  function DecodeAll(user: User, cs: seq<CachedItem>): seq<Item> {
    seq(|cs|, i requires 0 <= i < |cs| => Decode(user, cs[i]))
  }

  /** What comes back is what went in, exactly when the reader owns all of it. */
  lemma CacheRoundTrip(user: User, xs: seq<Item>)
    ensures DecodeAll(user, EncodeAll(xs)) == xs <==> forall i :: 0 <= i < |xs| ==> xs[i].user == user
  {
    var back := DecodeAll(user, EncodeAll(xs));
    if back == xs {
      forall i | 0 <= i < |xs| ensures xs[i].user == user { assert back[i].user == user; }
    }
  }

  datatype MemoryKey = MemoryKey(user: User, key: string)

  /** The items of one user, in the order the keys were first saved. */
  function ListOf(order: seq<MemoryKey>, items: map<MemoryKey, Item>, user: User): seq<Item>
    requires forall k :: k in order ==> k in items
  {
    if order == [] then []
    else
      var n := |order| - 1;
      ListOf(order[..n], items, user) + if order[n].user == user then [items[order[n]]] else []
  }

  lemma {:induction false} ListIsOwned(order: seq<MemoryKey>, items: map<MemoryKey, Item>, user: User)
    requires forall k :: k in order ==> k in items && items[k].user == k.user
    ensures forall i :: 0 <= i < |ListOf(order, items, user)| ==> ListOf(order, items, user)[i].user == user
  {
    if order == [] {
    } else {
      ListIsOwned(order[..|order| - 1], items, user);
    }
  }

  /** A user's list has exactly the items stored under the user's keys. */
  lemma {:induction false} ListHasExactly(order: seq<MemoryKey>, items: map<MemoryKey, Item>, user: User, x: Item)
    requires forall k :: k in order ==> k in items
    ensures x in ListOf(order, items, user) <==> exists k :: k in order && k.user == user && items[k] == x
  {
    if order == [] {
    } else {
      var n := |order| - 1;
      ListHasExactly(order[..n], items, user, x);
      assert order == order[..n] + [order[n]];
    }
  }

  lemma {:induction false} OtherListsUnchanged(order: seq<MemoryKey>, items: map<MemoryKey, Item>,
                                               k: MemoryKey, item: Item, user: User)
    requires forall x :: x in order ==> x in items
    requires k.user != user
    ensures ListOf(order, items[k := item], user) == ListOf(order, items, user)
  {
    if order == [] {
    } else {
      OtherListsUnchanged(order[..|order| - 1], items, k, item, user);
    }
  }

  /** The whole contents of the repository. */
  datatype Table = Table(order: seq<MemoryKey>, items: map<MemoryKey, Item>)

  ghost predicate TableOk(t: Table) {
    && (forall k :: k in t.items <==> k in t.order)
    && (forall a, b :: 0 <= a < b < |t.order| ==> t.order[a] != t.order[b])
    && (forall k :: k in t.items ==> t.items[k].user == k.user && t.items[k].key == k.key)
  }

  function Saved(t: Table, item: Item): (t': Table)
    requires TableOk(t)
    ensures TableOk(t')
  {
    var k := MemoryKey(item.user, item.key);
    Table(if k in t.items then t.order else t.order + [k], t.items[k := item])
  }

  lemma {:induction false} SameItemsSameList(order: seq<MemoryKey>, items: map<MemoryKey, Item>,
                                             k: MemoryKey, item: Item, user: User)
    requires k !in order && forall x :: x in order ==> x in items
    ensures ListOf(order, items[k := item], user) == ListOf(order, items, user)
  {
    if order == [] {
    } else {
      SameItemsSameList(order[..|order| - 1], items, k, item, user);
    }
  }

  /** No key is listed twice. */
  lemma {:induction false} ListKeysDiffer(order: seq<MemoryKey>, items: map<MemoryKey, Item>,
                                          user: User, a: nat, b: nat)
    requires forall x :: x in order ==> x in items && items[x].key == x.key
    requires forall i, j :: 0 <= i < j < |order| ==> order[i] != order[j]
    requires a < b < |ListOf(order, items, user)|
    ensures ListOf(order, items, user)[a].key != ListOf(order, items, user)[b].key
  {
    var n := |order| - 1;
    var list := ListOf(order[..n], items, user);
    if b < |list| {
      ListKeysDiffer(order[..n], items, user, a, b);
    } else {
      ListHasExactly(order[..n], items, user, list[a]);
      assert list[a] in list;
      var k :| k in order[..n] && k.user == user && items[k] == list[a];
      assert order[n] in order && k != order[n];
    }
  }

  /** A saved item replaces the one under its key where that stands. */
  lemma {:induction false} ListIsReplaced(order: seq<MemoryKey>, items: map<MemoryKey, Item>, k: MemoryKey, item: Item)
      returns (j: nat)
    requires k in order && (forall x :: x in order ==> x in items)
    requires forall a, b :: 0 <= a < b < |order| ==> order[a] != order[b]
    ensures var list := ListOf(order, items, k.user);
            && j < |list| && list[j] == items[k] && ListOf(order, items[k := item], k.user) == list[j := item]
  {
    var n := |order| - 1;
    var list := ListOf(order[..n], items, k.user);
    if order[n] == k {
      j := |list|;
      SameItemsSameList(order[..n], items, k, item, k.user);
    } else {
      assert k in order[..n];
      j := ListIsReplaced(order[..n], items, k, item);
    }
  }

  /** The list of the owner after a save: the item stands where its key stood, or at the end. */
  lemma ListAfterSave(t: Table, item: Item)
    requires TableOk(t)
    ensures var (before, after) := (ListOf(t.order, t.items, item.user),
                                    ListOf(Saved(t, item).order, Saved(t, item).items, item.user));
            && (forall j :: 0 <= j < |before| && before[j].key == item.key ==> after == before[j := item])
            && ((forall j :: 0 <= j < |before| ==> before[j].key != item.key) ==> after == before + [item])
  {
    var k := MemoryKey(item.user, item.key);
    var before := ListOf(t.order, t.items, item.user);
    if k in t.items {
      var j := ListIsReplaced(t.order, t.items, k, item);
      forall i | 0 <= i < |before| && i != j ensures before[i].key != item.key {
        ListKeysDiffer(t.order, t.items, item.user, if i < j then i else j, if i < j then j else i);
      }
    } else {
      SameItemsSameList(t.order, t.items, k, item, item.user);
      assert (t.order + [k])[..|t.order|] == t.order;
      forall j | 0 <= j < |before| ensures before[j].key != item.key {
        ListHasExactly(t.order, t.items, item.user, before[j]);
      }
    }
  }

  class InMemoryMemoryRepository {
    var order: seq<MemoryKey>
    var items: map<MemoryKey, Item>

    ghost predicate Valid()
      reads this
    {
      TableOk(Contents())
    }

    function Contents(): Table
      reads this
    {
      Table(order, items)
    }

    function List(user: User): seq<Item>
      requires Valid()
      reads this
    {
      ListOf(order, items, user)
    }

    constructor ()
      ensures Valid() && items == map[]
    {
      order, items := [], map[];
    }

    method SaveMemory(item: Item)
      requires Valid()
      modifies this
      ensures Valid() && Contents() == Saved(old(Contents()), item)
      ensures forall j :: 0 <= j < |old(List(item.user))| && old(List(item.user))[j].key == item.key ==>
                List(item.user) == old(List(item.user))[j := item]
      ensures (forall j :: 0 <= j < |old(List(item.user))| ==> old(List(item.user))[j].key != item.key) ==>
                List(item.user) == old(List(item.user)) + [item]
      ensures forall x :: x in List(item.user) <==>
                x == item || (x.key != item.key && x in old(List(item.user)))
      ensures forall u :: u != item.user ==> List(u) == old(List(u))
    {
      var k := MemoryKey(item.user, item.key);
      if k !in items {
        order := order + [k];
      }
      items := items[k := item];
      ListAfterSave(old(Contents()), item);
      ListIsUpdated(item);
      OthersKeepTheirLists(item);
    }

    /** The owner's list loses the item the key had, and gains the new one. */
    twostate lemma ListIsUpdated(item: Item)
      requires old(Valid()) && Valid() && items == old(items)[MemoryKey(item.user, item.key) := item]
      ensures forall x :: x in List(item.user) <==> x == item || (x.key != item.key && x in old(List(item.user)))
    {
      var key := MemoryKey(item.user, item.key);
      forall x ensures x in List(item.user) <==> x == item || (x.key != item.key && x in old(List(item.user))) {
        ListHasExactly(order, items, item.user, x);
        ListHasExactly(old(order), old(items), item.user, x);
        assert x == item ==> key in order && items[key] == x;
      }
    }

    /** Saving an item, under a new key or an old one, leaves every other user's list alone. */
    twostate lemma OthersKeepTheirLists(item: Item)
      requires old(Valid()) && Valid() && items == old(items)[MemoryKey(item.user, item.key) := item]
      requires order == old(order) || order == old(order) + [MemoryKey(item.user, item.key)]
      ensures forall u :: u != item.user ==> List(u) == old(List(u))
    {
      var k := MemoryKey(item.user, item.key);
      forall u | u != item.user ensures List(u) == old(List(u)) {
        OtherListsUnchanged(old(order), old(items), k, item, u);
        if order != old(order) { assert order[..|order| - 1] == old(order); }
      }
    }
  }

  /** A fail-open cache. `up` says whether the server answers this call; entries may also go away
      between calls. Cache keys are one per user. */
  class JsonCache {
    var values: map<User, Json>

    constructor ()
      ensures values == map[]
    {
      values := map[];
    }

    method Get(key: User, up: bool) returns (value: Option<Json>)
      ensures value == if up && key in values then Some(values[key]) else None
    {
      value := if up && key in values then Some(values[key]) else None;
    }

    method Set(key: User, value: Json, up: bool)
      modifies this
      ensures values == if up then old(values)[key := value] else old(values)
    {
      if up {
        values := values[key := value];
      }
    }

    method Delete(key: User, up: bool)
      modifies this
      ensures values == if up then old(values) - {key} else old(values)
    {
      if up {
        values := values - {key};
      }
    }

    /** Expiry and eviction. */
    method Lose(keys: set<User>)
      modifies this
      ensures values == old(values) - keys
    {
      values := values - keys;
    }
  }

  /** The delete of a `Remembering` is effective; a `Listing` may meet a cache that is down at any of its
      calls. */
  datatype Operation =
    | Remembering(item: Item, confirmed: bool)
    | Listing(user: User, getUp: bool, setUp: bool, deleteUp: bool)
    | Evicting(users: set<User>)

  /** What a repository without a cache would hold after the operations, and answer to them. */
  function After(t: Table, ops: seq<Operation>): (t': Table)
    requires TableOk(t)
    ensures TableOk(t')
  {
    if ops == [] then t
    else
      var n := |ops| - 1;
      var before := After(t, ops[..n]);
      if ops[n].Remembering? && ops[n].confirmed then Saved(before, ops[n].item) else before
  }

  function Answers(t: Table, ops: seq<Operation>): seq<seq<Item>>
    requires TableOk(t)
  {
    if ops == [] then []
    else
      var n := |ops| - 1;
      var before := After(t, ops[..n]);
      Answers(t, ops[..n]) + if ops[n].Listing? then [ListOf(before.order, before.items, ops[n].user)] else []
  }

  class MemoryService {
    const repository: InMemoryMemoryRepository
    const cache: JsonCache

    constructor (repository: InMemoryMemoryRepository, cache: JsonCache)
      ensures this.repository == repository && this.cache == cache
    {
      this.repository, this.cache := repository, cache;
    }

    /** What the cache holds for each user, but perhaps one, is garbage or exactly that user's list. */
    ghost predicate AgreesBut(exempt: set<User>)
      reads repository, cache
    {
      && repository.Valid()
      && forall u :: u in cache.values && u !in exempt && cache.values[u].Items? ==>
           DecodeAll(u, cache.values[u].items) == repository.List(u)
    }

    ghost predicate Agrees()
      reads repository, cache
    {
      AgreesBut({})
    }

    /** Saving needs a confirmation. With an effective delete the cache keeps agreeing; without one
        it still agrees on every other user. */
    method Remember(item: Item, confirmed: bool, deleteUp: bool) returns (saved: bool)
      requires Agrees()
      modifies repository, cache
      ensures saved == confirmed && repository.Valid()
      ensures saved ==> repository.Contents() == Saved(old(repository.Contents()), item)
      ensures !saved ==> repository.Contents() == old(repository.Contents()) && cache.values == old(cache.values)
      ensures saved ==> forall x :: x in repository.List(item.user) <==>
                x == item || (x.key != item.key && x in old(repository.List(item.user)))
      ensures saved ==> cache.values == if deleteUp then old(cache.values) - {item.user} else old(cache.values)
      ensures AgreesBut({item.user})
      ensures deleteUp || !saved || item.user !in old(cache.values) ==> Agrees()
    {
      if !confirmed {
        return false;
      }
      repository.SaveMemory(item);
      cache.Delete(item.user, deleteUp);
      saved := true;
    }

    /** Whatever the cache misses, drops or has lost, the answer is the repository's list. */
    method ListFor(user: User, getUp: bool, setUp: bool, deleteUp: bool) returns (memories: seq<Item>)
      requires Agrees()
      modifies cache
      ensures memories == repository.List(user) && Agrees()
      ensures if getUp && user in old(cache.values) && old(cache.values)[user].Items? then
                cache.values == old(cache.values)
              else if setUp then
                cache.values == old(cache.values)[user := Items(EncodeAll(memories))]
              else
                cache.values == old(cache.values) || cache.values == old(cache.values) - {user}
    {
      var cached := cache.Get(user, getUp);
      if cached.Some? {
        if cached.value.Items? {
          return DecodeAll(user, cached.value.items);
        }
        cache.Delete(user, deleteUp);
      }
      memories := repository.List(user);
      cache.Set(user, Items(EncodeAll(memories)), setUp);
      ListIsOwned(repository.order, repository.items, user);
      CacheRoundTrip(user, memories);
    }

    /** Entries that expire or are evicted between calls leave the rest in agreement. */
    method Evict(users: set<User>)
      requires Agrees()
      modifies cache
      ensures cache.values == old(cache.values) - users && Agrees()
    {
      cache.Lose(users);
    }

    /** Any sequence of calls that do not overlap, by any users, with entries lost in between: the cache
        cannot be told from the repository alone. */
    method Serve(ops: seq<Operation>) returns (answers: seq<seq<Item>>)
      requires Agrees()
      modifies repository, cache
      ensures Agrees()
      ensures repository.Contents() == After(old(repository.Contents()), ops)
      ensures answers == Answers(old(repository.Contents()), ops)
    {
      answers := [];
      for i := 0 to |ops|
        invariant Agrees()
        invariant repository.Contents() == After(old(repository.Contents()), ops[..i])
        invariant answers == Answers(old(repository.Contents()), ops[..i])
      {
        assert ops[..i + 1][..i] == ops[..i];
        match ops[i] {
          case Remembering(item, confirmed) =>
            var _ := Remember(item, confirmed, true);
          case Listing(user, getUp, setUp, deleteUp) =>
            var memories := ListFor(user, getUp, setUp, deleteUp);
            answers := answers + [memories];
          case Evicting(users) =>
            Evict(users);
        }
      }
      assert ops[..|ops|] == ops;
    }
  }
}
