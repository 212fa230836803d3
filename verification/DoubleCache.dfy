/** The two-generation content cache in front of another resolver. */
module DoubleCache {
  import opened Wrappers
  import opened Bytes
  import opened Integers
  import opened ContentTypes

  /** `next` is the wrapped resolver, a write-through map, if there is one. */
  datatype Cache = Cache(
    capacity: int,
    frontSize: int,
    front: map<Id, Content>,
    back: map<Id, Content>,
    next: Option<map<Id, Content>>)

  function New(capacity: int, next: Option<map<Id, Content>>): Cache {
    Cache(capacity, 0, map[], map[], next)
  }

  function WithCapacity(capacity: int): int {
    Halve(capacity)
  }

  /** Two generations of that capacity hold the whole, but for an odd byte. */
  lemma WithCapacityHalves(n: int)
    ensures n >= 0 ==> n - 1 <= 2 * WithCapacity(n) <= n
    ensures n <= 0 ==> n <= 2 * WithCapacity(n) <= n + 1
  {
  }

  function Forwarded(next: Option<map<Id, Content>>, id: Id, content: Content): Option<map<Id, Content>> {
    if next.Some? then Some(next.value[id := content]) else None
  }

  predicate Cacheable(c: Cache, content: Content) {
    |content| <= c.capacity
  }

  function Rotated(c: Cache, size: nat): Cache {
    if c.frontSize + size > c.capacity then c.(back := c.front, frontSize := 0, front := map[]) else c
  }

  function Insert(c: Cache, id: Id, content: Content): Cache {
    if !Cacheable(c, content) then c.(next := Forwarded(c.next, id, content))
    else
      var r := Rotated(c, |content|);
      r.(frontSize := r.frontSize + |content|,
         front := r.front[id := content],
         next := Forwarded(c.next, id, content))
  }

  function Lookup(m: map<Id, Content>, id: Id): Option<Content> {
    if id in m then Some(m[id]) else None
  }

  /** What the two generations answer by themselves. */
  function Cached(c: Cache, id: Id): Option<Content> {
    if id in c.front then Some(c.front[id]) else Lookup(c.back, id)
  }

  function Query(c: Cache, id: Id): Option<Content> {
    if Cached(c, id).Some? then Cached(c, id)
    else if c.next.Some? then Lookup(c.next.value, id)
    else None
  }

  datatype Item = Item(id: Id, content: Content)

  function Run(c: Cache, items: seq<Item>): Cache {
    if items == [] then c
    else
      var last := items[|items| - 1];
      Insert(Run(c, items[..|items| - 1]), last.id, last.content)
  }

  // ----- transparency

  /** Asking the cache is asking the wrapped resolver. */
  ghost predicate Transparent(c: Cache) {
    c.next.Some? && forall id :: Query(c, id) == Lookup(c.next.value, id)
  }

  /** The insert goes past the cache while an older content for the same identifier stays in it. */
  predicate Shadowed(c: Cache, id: Id, content: Content) {
    !Cacheable(c, content) && Cached(c, id).Some? && Cached(c, id) != Some(content)
  }

  /**
    An insert keeps the cache transparent if and only if it is not an oversized content for an
    identifier that is cached with another one.
   */
  lemma InsertStaysTransparentIff(c: Cache, id: Id, content: Content)
    requires Transparent(c)
    ensures Transparent(Insert(c, id, content)) <==> !Shadowed(c, id, content)
  {
    var c' := Insert(c, id, content);
    if Shadowed(c, id, content) {
      assert Query(c', id) != Lookup(c'.next.value, id);
    } else {
      forall i
        ensures Query(c', i) == Lookup(c'.next.value, i)
      {
        assert Query(c, i) == Lookup(c.next.value, i);
      }
    }
  }

  /** Every identifier in `m` carries the content that `of` gives it. */
  ghost predicate Carries(m: map<Id, Content>, of: Id -> Content) {
    forall id :: id in m ==> m[id] == of(id)
  }

  /**
    When an identifier always carries the same content, a cache over any resolver answers
    exactly as the resolver would, after every sequence of inserts and rotations.
   */
  lemma {:induction false} ConsistentRunsAreTransparent(
    capacity: int, next: map<Id, Content>, items: seq<Item>, of: Id -> Content)
    requires Carries(next, of) && forall i :: 0 <= i < |items| ==> items[i].content == of(items[i].id)
    ensures var c := Run(New(capacity, Some(next)), items);
            Transparent(c) && Carries(c.next.value, of)
  {
    if items != [] {
      var init, last := items[..|items| - 1], items[|items| - 1];
      ConsistentRunsAreTransparent(capacity, next, init, of);
      var c := Run(New(capacity, Some(next)), init);
      assert Query(c, last.id) == Lookup(c.next.value, last.id);
      InsertStaysTransparentIff(c, last.id, last.content);
    }
  }

  /** Without that: an oversized second content is stored, and the cache goes on answering the first. */
  lemma OversizedReinsertIsShadowed()
    ensures var c := Run(New(1, Some(map[])), [Item("a", [1]), Item("a", [2, 3])]);
            c.next.Some? && Query(c, "a") == Some([1]) && Lookup(c.next.value, "a") == Some([2, 3])
  {
    var items := [Item("a", [1]), Item("a", [2, 3])];
    assert items[..1] == [Item("a", [1])] && items[..1][..0] == [];
    assert Run(New(1, Some(map[])), items[..1]) == Insert(New(1, Some(map[])), "a", [1]);
  }

  // ----- retention

  /** The bytes of those items that are cached at all. */
  function CacheableTotal(capacity: int, items: seq<Item>): nat {
    if items == [] then 0
    else
      var last := items[|items| - 1];
      CacheableTotal(capacity, items[..|items| - 1]) + if |last.content| <= capacity then |last.content| else 0
  }

  /** The latest cacheable content of `id`, where `content` came before all `items`. */
  function Latest(capacity: int, id: Id, content: Content, items: seq<Item>): Content {
    if items == [] then content
    else
      var last := items[|items| - 1];
      if last.id == id && |last.content| <= capacity then last.content
      else Latest(capacity, id, content, items[..|items| - 1])
  }

  /** The content is in the front, or in the back with little put in front of it since. */
  predicate Kept(c: Cache, id: Id, content: Content, total: nat) {
    || (id in c.front && c.front[id] == content)
    || (id !in c.front && id in c.back && c.back[id] == content && c.frontSize <= total)
  }

  lemma KeptByInsert(c: Cache, id: Id, content: Content, total: nat, item: Item)
    requires Kept(c, id, content, total)
    requires total + (if Cacheable(c, item.content) then |item.content| else 0) <= c.capacity
    ensures var stored := Cacheable(c, item.content);
            Kept(Insert(c, item.id, item.content), id,
                 if stored && item.id == id then item.content else content,
                 total + if stored then |item.content| else 0)
  {
  }

  lemma {:induction false} KeptAlongRun(c: Cache, id: Id, content: Content, items: seq<Item>)
    requires Cacheable(c, content) && CacheableTotal(c.capacity, items) <= c.capacity
    ensures var r := Run(Insert(c, id, content), items);
            r.capacity == c.capacity &&
            Kept(r, id, Latest(c.capacity, id, content, items), CacheableTotal(c.capacity, items))
  {
    if items != [] {
      var init, last := items[..|items| - 1], items[|items| - 1];
      KeptAlongRun(c, id, content, init);
      KeptByInsert(Run(Insert(c, id, content), init), id, Latest(c.capacity, id, content, init),
                   CacheableTotal(c.capacity, init), last);
    }
  }

  /**
    A cacheable content is answered from memory, whatever was in the cache before, until later
    cacheable inserts add up to more than the capacity; what is answered is the latest of its
    identifier.
   */
  lemma CacheableContentIsRetained(c: Cache, id: Id, content: Content, items: seq<Item>)
    requires Cacheable(c, content) && CacheableTotal(c.capacity, items) <= c.capacity
    ensures Query(Run(Insert(c, id, content), items), id) == Some(Latest(c.capacity, id, content, items))
  {
    KeptAlongRun(c, id, content, items);
  }

  // ----- memory

  ghost function Total(m: map<Id, Content>): nat {
    if m == map[] then 0
    else
      var id :| id in m;
      |m[id]| + Total(m - {id})
  }

  /** The sum does not depend on the order in which it is taken. */
  lemma {:induction false} TotalWithout(m: map<Id, Content>, id: Id)
    requires id in m
    ensures Total(m) == |m[id]| + Total(m - {id})
    decreases |m|
  {
    var first :| first in m && Total(m) == |m[first]| + Total(m - {first});
    if first != id {
      Smaller(m, first);
      Smaller(m, id);
      TotalWithout(m - {first}, id);
      TotalWithout(m - {id}, first);
      assert m - {first} - {id} == m - {id} - {first};
    }
  }

  lemma Smaller(m: map<Id, Content>, id: Id)
    requires id in m
    ensures |m - {id}| < |m|
  {
    assert (m - {id}).Keys == m.Keys - {id};
    assert |m| == |m.Keys| && |m - {id}| == |(m - {id}).Keys|;
  }

  lemma TotalInsert(m: map<Id, Content>, id: Id, content: Content)
    ensures Total(m[id := content]) <= Total(m) + |content|
  {
    var m' := m[id := content];
    TotalWithout(m', id);
    assert m' - {id} == m - {id};
    if id in m {
      TotalWithout(m, id);
    } else {
      assert m - {id} == m;
    }
  }

  function Room(c: Cache): nat {
    if c.capacity < 0 then 0 else c.capacity
  }

  /** The counter covers what is in the front, and neither generation outgrows the capacity. */
  ghost predicate Bounded(c: Cache) {
    Total(c.front) <= c.frontSize <= Room(c) && Total(c.back) <= Room(c)
  }

  lemma InsertStaysBounded(c: Cache, id: Id, content: Content)
    requires Bounded(c)
    ensures Bounded(Insert(c, id, content))
  {
    if Cacheable(c, content) {
      TotalInsert(Rotated(c, |content|).front, id, content);
    }
  }

  /**
    After any run the cache holds at most twice its capacity in content bytes; set up with
    WithCapacity(n), at most n. The default options do not go through WithCapacity.
   */
  lemma {:induction false} MemoryIsBounded(capacity: int, next: Option<map<Id, Content>>, items: seq<Item>)
    ensures var c := Run(New(capacity, next), items);
            Bounded(c) && c.capacity == capacity && Total(c.front) + Total(c.back) <= 2 * Room(c)
    ensures forall n :: n >= 0 && capacity == WithCapacity(n) ==>
              var c := Run(New(capacity, next), items); Total(c.front) + Total(c.back) <= n
  {
    if items != [] {
      MemoryIsBounded(capacity, next, items[..|items| - 1]);
      var last := items[|items| - 1];
      InsertStaysBounded(Run(New(capacity, next), items[..|items| - 1]), last.id, last.content);
    }
  }

  // ----- the resolver as code

  class DoubleCacheContentResolver {
    const capacity: int
    var cacheFrontSize: int
    var cacheFront: map<Id, Content>
    var cacheBack: map<Id, Content>
    var next: Option<map<Id, Content>>

    ghost function View(): Cache
      reads this
    {
      Cache(capacity, cacheFrontSize, cacheFront, cacheBack, next)
    }

    constructor (capacity: int, next: Option<map<Id, Content>>)
      ensures View() == New(capacity, next)
    {
      this.capacity, this.next := capacity, next;
      cacheFrontSize, cacheFront, cacheBack := 0, map[], map[];
    }

    method InsertContent(id: Id, content: Content)
      modifies this
      ensures View() == Insert(old(View()), id, content)
    {
      if |content| > capacity {
        if next.Some? {
          next := Some(next.value[id := content]);
        }
        return;
      }
      if cacheFrontSize + |content| > capacity {
        cacheBack := cacheFront;
        cacheFrontSize := 0;
        cacheFront := map[];
      }
      cacheFrontSize := cacheFrontSize + |content|;
      cacheFront := cacheFront[id := content];
      if next.Some? {
        next := Some(next.value[id := content]);
      }
    }

    method QueryContent(id: Id) returns (content: Option<Content>)
      ensures content == Query(View(), id)
    {
      if id in cacheFront {
        return Some(cacheFront[id]);
      }
      if id in cacheBack {
        return Some(cacheBack[id]);
      }
      if next.Some? && id in next.value {
        return Some(next.value[id]);
      }
      return None;
    }
  }
}
