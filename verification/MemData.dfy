/** The in-memory store itself: an object that changes its maps and tree in place. Every
    method is proved against the store as a value. */
module MemData {
  import opened Calendar
  import opened PetIndex
  import opened BirthdayTree
  import opened PetStore
  import opened PetSearch

  datatype Item = NoPet | Found(pet: Pet)

  /** `for id := range bucket`: every id once, in an order the language leaves open. */
  method Ids(b: Bucket) returns (ids: seq<string>)
    ensures multiset(ids) == multiset(b.Keys)
  {
    ids := [];
    var left := b.Keys;
    while left != {}
      invariant left <= b.Keys
      invariant multiset(ids) == multiset(b.Keys - left)
      decreases left
    {
      var id :| id in left;
      ids := ids + [id];
      assert b.Keys - (left - {id}) == (b.Keys - left) + {id};
      left := left - {id};
    }
    assert b.Keys - {} == b.Keys;
  }

  /** `for _, p := range bucket`, collecting the ids of the pets themselves. */
  method PetIds(b: Bucket) returns (ids: seq<string>)
    requires forall id | id in b :: b[id].id == id
    ensures multiset(ids) == multiset(b.Keys)
  {
    var keys := Ids(b);
    assert forall i | 0 <= i < |keys| :: keys[i] in multiset(keys);
    ids := [];
    for i := 0 to |keys|
      invariant ids == keys[..i]
    {
      ids := ids + [b[keys[i]].id];
    }
    assert keys[..|keys|] == keys;
  }

  /** byNames and byTypes: the ids of the bucket of each filter value, in filter order. */
  method ListBuckets<K(==, !new)>(index: map<K, Bucket>, keys: seq<K>) returns (ids: seq<string>)
    ensures forall id :: multiset(ids)[id] == Hits(index, keys, id)
  {
    ids := [];
    for i := 0 to |keys|
      invariant forall id :: multiset(ids)[id] == Hits(index, keys[..i], id)
    {
      assert keys[..i + 1][..i] == keys[..i];
      if keys[i] in index {
        var listed := Ids(index[keys[i]]);
        ids := ids + listed;
      }
    }
    assert keys[..|keys|] == keys;
  }

  ghost function DaysListedBefore(tree: seq<Bucket>, r: Range, i: nat, id: string): set<int>
    requires Ordered(tree) && i <= |tree| && r.Between?
  {
    set j | 0 <= j < i && SortTime(r.start) <= BucketDay(tree[j]) < SortTime(r.end) && id in tree[j] ::
      BucketDay(tree[j])
  }

  lemma DaysListedStep(tree: seq<Bucket>, r: Range, i: nat, id: string)
    requires Ordered(tree) && i < |tree| && r.Between?
    ensures var day := BucketDay(tree[i]);
            |DaysListedBefore(tree, r, i + 1, id)| == |DaysListedBefore(tree, r, i, id)|
              + if SortTime(r.start) <= day < SortTime(r.end) && id in tree[i] then 1 else 0
  {
    hide BirthdayToTime;
    TreeFacts(tree);
    var day := BucketDay(tree[i]);
    var before, after := DaysListedBefore(tree, r, i, id), DaysListedBefore(tree, r, i + 1, id);
    if SortTime(r.start) <= day < SortTime(r.end) && id in tree[i] {
      assert after == before + {day};
    } else {
      assert after == before;
    }
  }

  lemma DaysListedAll(tree: seq<Bucket>, r: Range, id: string)
    requires Ordered(tree) && r.Between?
    ensures DaysListedBefore(tree, r, |tree|, id) == DaysListing(ByDay(tree), r, id)
  {
    hide BirthdayToTime;
    TreeFacts(tree);
  }

  /** byBirthdays: the half-open range walk of the tree, which panics on an inverted range. */
  method ByBirthdays(tree: seq<Bucket>, r: Range) returns (panicked: bool, ids: seq<string>)
    requires Ordered(tree)
    requires forall i, id | 0 <= i < |tree| && id in tree[i] :: tree[i][id].id == id
    ensures panicked <==> !InOrder(r)
    ensures !panicked ==> forall id :: multiset(ids)[id] == |DaysListing(ByDay(tree), r, id)|
  {
    hide BirthdayToTime;
    panicked, ids := !InOrder(r), [];
    if panicked || r.Any? {
      return;
    }
    for i := 0 to |tree|
      invariant forall id :: multiset(ids)[id] == |DaysListedBefore(tree, r, i, id)|
    {
      forall id {
        DaysListedStep(tree, r, i, id);
      }
      var low := CompareGet(r.start, tree[i]);
      var high := CompareGet(r.end, tree[i]);
      if low <= 0 && high > 0 {
        var listed := PetIds(tree[i]);
        ids := ids + listed;
      }
    }
    forall id {
      DaysListedAll(tree, r, id);
    }
  }

  function Total(lists: seq<seq<string>>, id: string): nat {
    if lists == [] then 0 else Total(lists[..|lists| - 1], id) + multiset(lists[|lists| - 1])[id]
  }

  function Count(m: map<string, nat>, id: string): nat {
    if id in m then m[id] else 0
  }

  /** The counter once it has seen the mentions in `seen`. */
  ghost predicate Counted(
      counts: map<string, nat>, filters: nat, seen: multiset<string>, m: map<string, nat>, sent: seq<string>)
  {
    && (forall id :: Count(m, id) == Count(counts, id) + seen[id])
    && forall id :: multiset(sent)[id] == if Count(counts, id) < filters <= Count(m, id) then 1 else 0
  }

  lemma OneMore(ids: seq<string>, j: nat)
    requires j < |ids|
    ensures multiset(ids[..j + 1]) == multiset(ids[..j]) + multiset{ids[j]}
  {
    assert ids[..j + 1] == ids[..j] + [ids[j]];
  }

  lemma CountOne(
      counts: map<string, nat>, filters: nat, seen: multiset<string>, m: map<string, nat>, sent: seq<string>,
      id: string)
    requires Counted(counts, filters, seen, m, sent)
    ensures var count := Count(m, id) + 1;
            Counted(counts, filters, seen + multiset{id}, m[id := count],
                    if count == filters then sent + [id] else sent)
  {
  }

  /** The inner loop of the counting goroutine, on one arrived list. An id goes out at the
      moment its count reaches the number of filters. */
  method CountList(counts: map<string, nat>, ids: seq<string>, filters: nat)
    returns (m: map<string, nat>, sent: seq<string>)
    ensures forall id :: Count(m, id) == Count(counts, id) + multiset(ids)[id]
    ensures forall id :: multiset(sent)[id] == if Count(counts, id) < filters <= Count(m, id) then 1 else 0
  {
    m, sent := counts, [];
    for j := 0 to |ids|
      invariant Counted(counts, filters, multiset(ids[..j]), m, sent)
    {
      hide Counted, Count;
      var id := ids[j];
      CountOne(counts, filters, multiset(ids[..j]), m, sent, id);
      OneMore(ids, j);
      var count := Count(m, id) + 1;
      m := m[id := count];
      if count == filters {
        sent := sent + [id];
      }
    }
    assert ids[..|ids|] == ids;
  }

  /** The goroutine that counts ids as the lists arrive: every id is sent at most once. */
  method CountMatches(lists: seq<seq<string>>, filters: nat) returns (sent: seq<string>)
    requires filters > 0
    ensures forall id :: multiset(sent)[id] == if Total(lists, id) >= filters then 1 else 0
  {
    sent := [];
    var m: map<string, nat> := map[];
    for i := 0 to |lists|
      invariant forall id :: Count(m, id) == Total(lists[..i], id)
      invariant forall id :: multiset(sent)[id] == if Count(m, id) >= filters then 1 else 0
    {
      assert lists[..i + 1][..i] == lists[..i];
      var out;
      m, out := CountList(m, lists[i], filters);
      sent := sent + out;
    }
    assert lists[..|lists|] == lists;
  }

  lemma ServesChecked(server: Server, pets: seq<Pet>, present: bool)
    ensures CheckedPopulate(server, pets, present)
         == Serve(server, if present then PetStore.UpdatePets(pets) else PetStore.AddPets(pets))
    ensures CheckedPopulate(server, pets, present).1 == Done ==>
              Overlaid(server.store, pets, CheckedPopulate(server, pets, present).0.store)
  {
    hide Overlaid, FirstBad, Populate;
    PopulateOverlays(server.store, pets);
  }

  lemma LiveId(s: Store, id: string)
    requires Inv(s) && id in s.ids
    ensures s.ids[id].id == id
  {
  }

  class Data {
    var ids: Bucket
    var names: map<string, Bucket>
    var types: map<PetType, Bucket>
    var birthday: seq<Bucket>
    var lock: Lock

    ghost predicate Valid()
      reads this
    {
      Ordered(birthday) && Inv(Contents().store)
    }

    ghost function Contents(): Server
      reads this
      requires Ordered(birthday)
    {
      Server(Store(ids, names, types, ByDay(birthday)), lock)
    }

    constructor ()
      ensures Valid() && Contents() == Server(EMPTY, Free)
    {
      ids, names, types, birthday, lock := map[], map[], map[], [], Free;
    }

    method Populate(pets: seq<Pet>)
      requires Valid()
      modifies this
      ensures Valid()
      ensures Contents() == old(Contents()).(store := PetStore.Populate(old(Contents()).store, pets))
    {
      hide BirthdayToTime, Inv, Ordered, ByDay;
      for i := 0 to |pets|
        invariant Valid()
        invariant Contents() == old(Contents()).(store := PetStore.Populate(old(Contents()).store, pets[..i]))
      {
        var p := pets[i];
        assert pets[..i + 1][..i] == pets[..i];
        PutPetInv(Contents().store, p);
        ids := ids[p.id := p];
        if p.name in names {
          names := names[p.name := names[p.name][p.id := p]];
        } else {
          names := names[p.name := map[p.id := p]];
        }
        if p.kind in types {
          types := types[p.kind := types[p.kind][p.id := p]];
        } else {
          types := types[p.kind := map[p.id := p]];
        }
        birthday := Place(birthday, p);
      }
      assert pets[..|pets|] == pets;
    }

    /** The id check of AddPets (present = false) and UpdatePets (present = true). */
    method CheckIds(pets: seq<Pet>, present: bool) returns (bad: nat)
      requires Ordered(birthday)
      ensures bad == FirstBad(Contents().store, pets, present)
    {
      bad := 0;
      while bad < |pets| && (pets[bad].id in ids) == present
        invariant bad <= |pets|
        invariant FirstBad(Contents().store, pets, present) == bad + FirstBad(Contents().store, pets[bad..], present)
      {
        bad := bad + 1;
      }
    }

    method AddPets(pets: seq<Pet>) returns (outcome: Outcome)
      requires Valid()
      modifies this
      ensures Valid()
      ensures (Contents(), outcome) == Serve(old(Contents()), PetStore.AddPets(pets))
      ensures outcome == Done ==> Overlaid(old(Contents()).store, pets, Contents().store)
    {
      hide Serve, Overlaid;
      ServesChecked(Contents(), pets, false);
      outcome := CheckedWrite(pets, false);
    }

    method UpdatePets(pets: seq<Pet>) returns (outcome: Outcome)
      requires Valid()
      modifies this
      ensures Valid()
      ensures (Contents(), outcome) == Serve(old(Contents()), PetStore.UpdatePets(pets))
      ensures outcome == Done ==> Overlaid(old(Contents()).store, pets, Contents().store)
    {
      hide Serve, Overlaid;
      ServesChecked(Contents(), pets, true);
      outcome := CheckedWrite(pets, true);
    }

    method CheckedWrite(pets: seq<Pet>, present: bool) returns (outcome: Outcome)
      requires Valid()
      modifies this
      ensures Valid()
      ensures (Contents(), outcome) == CheckedPopulate(old(Contents()), pets, present)
    {
      hide Inv;
      if lock == WriterWaiting {
        return Blocked;
      }
      var bad := CheckIds(pets, present);
      if bad < |pets| {
        lock := ReadLeaked;
        return Rejected(pets[bad].id);
      }
      if lock != Free {
        lock := WriterWaiting;
        return Blocked;
      }
      Populate(pets);
      outcome := Done;
    }

    method DeletePets(gone: seq<string>) returns (outcome: Outcome)
      requires Valid()
      modifies this
      ensures Valid()
      ensures (Contents(), outcome) == Serve(old(Contents()), PetStore.DeletePets(gone))
      ensures outcome == Done ==> Erased(old(Contents()).store, gone, Contents().store)
    {
      hide BirthdayToTime, Inv, Ordered, ByDay, Erased;
      if lock != Free {
        lock := WriterWaiting;
        return Blocked;
      }
      for i := 0 to |gone|
        invariant Valid() && lock == Free
        invariant Contents().store == Erase(old(Contents()).store, gone[..i])
      {
        var id := gone[i];
        assert gone[..i + 1][..i] == gone[..i];
        DropPetInv(Contents().store, id);
        if id in ids {
          var p := ids[id];
          LiveId(Contents().store, id);
          ids := ids - {id};
          if p.name in names {
            if |names[p.name]| == 1 {
              names := names - {p.name};
            } else {
              names := names[p.name := names[p.name] - {id}];
            }
          }
          if p.kind in types {
            if |types[p.kind]| == 1 {
              types := types - {p.kind};
            } else {
              types := types[p.kind := types[p.kind] - {id}];
            }
          }
          birthday := Unplace(birthday, p);
        }
      }
      assert gone[..|gone|] == gone;
      EraseErases(old(Contents()).store, gone);
      outcome := Done;
    }

    lemma TreeEntriesKeepIds()
      requires Valid()
      ensures forall i, id | 0 <= i < |birthday| && id in birthday[i] :: birthday[i][id].id == id
    {
      hide BirthdayToTime;
      TreeFacts(birthday);
    }

    /** searchPets. `order` is the order in which the three lists arrive. A stale id with no live
        pet goes out as an empty item. A cancelled search may miss some, and sends nothing else. */
    method SearchPets(f: Filter, order: seq<nat>, ctx: Context)
      returns (end: SearchEnd, sent: seq<string>, items: seq<Item>)
      requires Valid() && Permutes(order)
      ensures end == if lock == WriterWaiting then Waits else if InOrder(f.range) then Ends else Panics
      ensures end.Ends? && ctx.Alive? ==> Sends(Contents().store, f, sent)
      ensures end.Ends? ==> forall id :: multiset(sent)[id] <= if Selected(Contents().store, f, id) then 1 else 0
      ensures end.Ends? ==> |items| == |sent|
      ensures end.Ends? ==> forall i | 0 <= i < |sent| ::
                items[i] == if sent[i] in ids then Found(ids[sent[i]]) else NoPet
    {
      hide BirthdayToTime, Covers, Score, Ordered;
      sent, items, end := [], [], Ends;
      if lock == WriterWaiting {
        return Waits, sent, items;
      }
      var filters := Criteria(f);
      if filters == 0 {
        sent := Ids(ids);
      } else {
        var panicked;
        panicked, sent := CollectMatches(f, order, ctx, filters);
        if panicked {
          return Panics, sent, items;
        }
      }
      if ctx.Cancelled? && ctx.deliveries < |sent| {
        PrefixCounts(sent, ctx.deliveries);
        sent := sent[..ctx.deliveries];
      }
      items := seq(|sent|, i requires 0 <= i < |sent| reads this =>
        if sent[i] in ids then Found(ids[sent[i]]) else NoPet);
    }

    /** The three searches and the count of what they list. */
    method CollectMatches(f: Filter, order: seq<nat>, ctx: Context, filters: nat)
      returns (panicked: bool, sent: seq<string>)
      requires Valid() && filters == Criteria(f) > 0 && Permutes(order)
      ensures panicked <==> !InOrder(f.range)
      ensures !panicked && ctx.Alive? ==> Sends(Contents().store, f, sent)
      ensures !panicked ==>
                forall id :: multiset(sent)[id] <= if Selected(Contents().store, f, id) then 1 else 0
    {
      hide BirthdayToTime, Covers, Hits, DaysListing, Ordered, InOrder, Total, Score, Permutes;
      sent := [];
      var byNames := ListBuckets(names, f.names);
      var byTypes := ListBuckets(types, f.kinds);
      TreeEntriesKeepIds();
      var byDays;
      panicked, byDays := ByBirthdays(birthday, f.range);
      if panicked {
        return;
      }
      var lists := [Arriving(ctx, 0, byNames), Arriving(ctx, 1, byTypes), Arriving(ctx, 2, byDays)];
      OrderPlaces(order);
      var arrived := [lists[order[0]], lists[order[1]], lists[order[2]]];
      forall id
        ensures Total(arrived, id) <= Score(Contents().store, f, id)
        ensures ctx.Alive? ==> Total(arrived, id) == Score(Contents().store, f, id)
      {
        ArrivedScore(Contents().store, f, ctx, byNames, byTypes, byDays, order, id);
      }
      sent := CountMatches(arrived, filters);
    }
  }

  /** How a search ends: it waits behind a writer for ever, panics, or closes its channel. */
  datatype SearchEnd = Waits | Panics | Ends

  /** The order in which the three lists arrive. */
  predicate Permutes(order: seq<nat>) {
    |order| == 3 && multiset(order) == multiset{0, 1, 2}
  }

  lemma OrderPlaces(order: seq<nat>)
    requires Permutes(order)
    ensures |order| == 3 && order[0] < 3 && order[1] < 3 && order[2] < 3
    ensures order[0] != order[1] && order[0] != order[2] && order[1] != order[2]
  {
    assert order == [order[0], order[1], order[2]];
    assert forall i | 0 <= i < 3 :: multiset(order)[order[i]] == 1;
  }

  /** A context that ends during a search keeps some lists from the counter and some items from
      the caller. */
  datatype Context = Alive | Cancelled(arrives: nat -> bool, deliveries: nat)

  function Arriving(ctx: Context, i: nat, list: seq<string>): seq<string> {
    if ctx.Cancelled? && !ctx.arrives(i) then [] else list
  }

  lemma PrefixCounts(s: seq<string>, n: nat)
    requires n <= |s|
    ensures forall id :: multiset(s[..n])[id] <= multiset(s)[id]
  {
    assert s == s[..n] + s[n..];
  }

  lemma ArrivalOrder(lists: seq<seq<string>>, order: seq<nat>, id: string)
    requires |lists| == 3 && Permutes(order)
    requires forall i | 0 <= i < 3 :: order[i] < 3
    ensures Total([lists[order[0]], lists[order[1]], lists[order[2]]], id)
         == multiset(lists[0])[id] + multiset(lists[1])[id] + multiset(lists[2])[id]
  {
    OrderPlaces(order);
    hide *;
    var x, y, z := lists[order[0]], lists[order[1]], lists[order[2]];
    TotalOfThree(x, y, z, id);
  }

  /** The lists that arrive name an id at most as often as the indexes do. */
  lemma ArrivedScore(
      s: Store, f: Filter, ctx: Context, byNames: seq<string>, byTypes: seq<string>, byDays: seq<string>,
      order: seq<nat>, id: string)
    requires Permutes(order) && forall i | 0 <= i < 3 :: order[i] < 3
    requires multiset(byNames)[id] == Hits(s.names, f.names, id)
    requires multiset(byTypes)[id] == Hits(s.kinds, f.kinds, id)
    requires multiset(byDays)[id] == |DaysListing(s.days, f.range, id)|
    ensures var lists := [Arriving(ctx, 0, byNames), Arriving(ctx, 1, byTypes), Arriving(ctx, 2, byDays)];
            var total := Total([lists[order[0]], lists[order[1]], lists[order[2]]], id);
            total <= Score(s, f, id) && (ctx.Alive? ==> total == Score(s, f, id))
  {
    hide BirthdayToTime, Hits, DaysListing, Total;
    var lists := [Arriving(ctx, 0, byNames), Arriving(ctx, 1, byTypes), Arriving(ctx, 2, byDays)];
    ArrivalOrder(lists, order, id);
  }

  lemma TotalOfThree(x: seq<string>, y: seq<string>, z: seq<string>, id: string)
    ensures Total([x, y, z], id) == multiset(x)[id] + multiset(y)[id] + multiset(z)[id]
  {
    TotalOfNone(id);
    hide Total;
    TotalOfOneMore([], x, id);
    TotalOfOneMore([x], y, id);
    TotalOfOneMore([x, y], z, id);
    assert [] + [x] == [x] && [x] + [y] == [x, y] && [x, y] + [z] == [x, y, z];
  }

  lemma TotalOfNone(id: string)
    ensures Total([], id) == 0
  {
  }

  lemma TotalOfOneMore(lists: seq<seq<string>>, last: seq<string>, id: string)
    ensures Total(lists + [last], id) == Total(lists, id) + multiset(last)[id]
  {
    assert (lists + [last])[..|lists|] == lists;
  }
}
