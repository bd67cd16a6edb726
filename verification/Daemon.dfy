/** A Porto that answers as the Porto module says: the calls have an implementation, and any of
    them may fail. */
module Daemon {
  import opened GoStrings
  import opened Labels
  import opened Ids
  import opened Porto

  /** Prints a label map, in no particular order. */
  method Print(m: Labels) returns (text: string)
    ensures Prints(text, m)
  {
    var entries: seq<Entry> := [];
    var rest := m.Keys;
    while rest != {}
      invariant rest <= m.Keys && Lists(entries, map k | k in m && k !in rest :: m[k])
      decreases rest
    {
      var k :| k in rest;
      ListsMore(entries, m, rest, k);
      entries := entries + [Entry(k, m[k], "", "", "", "")];
      rest := rest - {k};
    }
    assert (map k | k in m && k !in rest :: m[k]) == m;
    text := Join(Texts(entries), ';');
  }

  method ListIdsOf(store: Store, under: Id) returns (ids: seq<Id>)
    ensures IsListing(ids, store, under)
  {
    ids := [];
    var rest := store.Keys;
    while rest != {}
      invariant rest <= store.Keys && Distinct(ids)
      invariant forall id :: id in ids <==> id in store && id !in rest && (under == [] || under < id)
      decreases rest
    {
      var id :| id in rest;
      rest := rest - {id};
      if under == [] || under < id { ids := ids + [id]; }
    }
  }

  method PerformCreate(id: Id, labels: Option<Labels>, start: bool, store: Store, next: nat) returns (reply: Reply, store': Store, next': nat)
    ensures Call(Create(id, labels, start), store, next, reply, store', next')
  {
    reply, store', next' := Fault, store, next;
    if id !in store && Placed(store, id) {
      var text := "";
      if labels.Some? { text := Print(labels.value); }
      var created: int := *;
      reply, next' := Created(next), next + 1;
      store' := store[id := Rec(text, if start then "running" else "stopped", INHERITED, "", created, next)];
    }
  }

  method PerformUpdate(id: Id, labels: Option<Labels>, net: Option<string>, start: bool, store: Store, next: nat) returns (reply: Reply, store': Store)
    ensures Call(Update(id, labels, net, start), store, next, reply, store', next)
  {
    reply, store' := NotExist, store;
    if id in store {
      var r := store[id];
      if labels.Some? {
        var text := Print(labels.value);
        r := r.(labels := text);
      }
      if net.Some? { r := r.(net := net.value); }
      if start { r := r.(state := "running"); }
      reply, store' := Ok, store[id := r];
    }
  }

  method Perform(op: Op, store: Store, next: nat) returns (reply: Reply, store': Store, next': nat)
    ensures Call(op, store, next, reply, store', next')
  {
    hide Prints;
    reply, store', next' := Fault, store, next;
    var fails: bool := *;
    if fails { return; }
    match op {
      case Get(id) => reply := if id in store then Found(store[id]) else NotExist;
      case GetMany(ids) => reply := Many(map id | id in ids && id in store :: store[id]);
      case ListIds(under) =>
        var ids := ListIdsOf(store, under);
        reply := Listing(ids);
      case Create(id, labels, start) => reply, store', next' := PerformCreate(id, labels, start, store, next);
      case Update(id, labels, net, start) => reply, store' := PerformUpdate(id, labels, net, start, store, next);
      case SetEnv(id, env) =>
        reply := NotExist;
        if id in store { reply, store' := Ok, store[id := store[id].(env := env)]; }
      case Start(id) =>
        reply := NotExist;
        if id in store { reply, store' := Ok, store[id := store[id].(state := "running")]; }
      case Stop(id) =>
        reply := NotExist;
        if id in store {
          reply, store' := Ok, map x | x in store :: if id <= x then store[x].(state := "stopped") else store[x];
        }
      case Destroy(id) =>
        reply := NotExist;
        if id in store { reply, store' := Ok, Without(store, id); }
      case Outside(step) =>
        reply := Ok;
        if step.NetnsClosed? {
          var closed: bool := *;
          reply := Closed(closed);
        }
    }
  }
}
