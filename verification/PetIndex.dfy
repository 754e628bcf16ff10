/** One index of the pet store: buckets of pets by id, filed under a key computed from the
    pet. The name, type and birthday indexes differ only in that key. */
module PetIndex {
  import opened Calendar

  /** Pet types are an open enumeration. */
  type PetType = int

  datatype Pet = Pet(id: string, name: string, kind: PetType, birthday: Date)

  type Bucket = map<string, Pet>

  function NameOf(p: Pet): string { p.name }

  function KindOf(p: Pet): PetType { p.kind }

  function DayOf(p: Pet): int { SortTime(p.birthday) }

  /** What populate does to one index: file the pet, opening a bucket when there is none. */
  function Put<K(==)>(index: map<K, Bucket>, key: K, p: Pet): map<K, Bucket> {
    if key in index then index[key := index[key][p.id := p]] else index[key := map[p.id := p]]
  }

  /** What DeletePets does to one index: a bucket of size one goes as a whole. */
  function Drop<K(==)>(index: map<K, Bucket>, key: K, id: string): map<K, Bucket> {
    if key !in index then index
    else if |index[key]| == 1 then index - {key}
    else index[key := index[key] - {id}]
  }

  /** Holds whatever updates were made: no bucket is empty, every entry is filed under its
      own key and id, and every live pet is found under its current key. Entries left behind
      by an update that changed the key are allowed. */
  ghost predicate Covers<K(!new)>(index: map<K, Bucket>, live: Bucket, key: Pet -> K) {
    && (forall k | k in index :: index[k] != map[])
    && (forall k, id | k in index && id in index[k] :: index[k][id].id == id && key(index[k][id]) == k)
    && (forall id | id in live ::
          key(live[id]) in index && id in index[key(live[id])] && index[key(live[id])][id] == live[id])
  }

  /** The index holds exactly the live pets. */
  ghost predicate Agrees<K(!new)>(index: map<K, Bucket>, live: Bucket, key: Pet -> K) {
    && Covers(index, live, key)
    && forall k, id | k in index && id in index[k] :: id in live && key(live[id]) == k
  }

  lemma FiledUnderOwnKey<K(!new)>(index: map<K, Bucket>, live: Bucket, key: Pet -> K, k: K, id: string)
    requires Covers(index, live, key) && k in index && id in index[k]
    ensures index[k][id].id == id && key(index[k][id]) == k
  {
  }

  lemma PutCovers<K(!new)>(index: map<K, Bucket>, live: Bucket, key: Pet -> K, p: Pet)
    requires Covers(index, live, key)
    ensures Covers(Put(index, key(p), p), live[p.id := p], key)
  {
    var after := Put(index, key(p), p);
    assert p.id in after[key(p)];
    forall k | k in after ensures after[k] != map[] {
      if k == key(p) {
        assert p.id in after[k];
      }
    }
  }

  lemma OnlyEntry(b: Bucket, id: string, other: string)
    requires |b| == 1 && id in b && other in b
    ensures id == other
  {
    assert b.Keys == {id} + (b.Keys - {id});
    assert b.Keys - {id} == {};
  }

  lemma DropCovers<K(!new)>(index: map<K, Bucket>, live: Bucket, key: Pet -> K, id: string)
    requires Covers(index, live, key) && id in live
    ensures Covers(Drop(index, key(live[id]), id), live - {id}, key)
  {
    var k := key(live[id]);
    var after := Drop(index, k, id);
    if |index[k]| == 1 {
      forall other | other in live - {id} ensures key(live[other]) in after {
        if key(live[other]) == k {
          OnlyEntry(index[k], id, other);
        }
      }
    } else {
      assert |after[k].Keys| == |index[k].Keys| - 1 by {
        assert after[k].Keys == index[k].Keys - {id};
      }
      assert index[k].Keys != {};
      assert after[k] != map[];
    }
  }

  lemma EntryOfPut<K(!new)>(index: map<K, Bucket>, key: K, p: Pet, k: K, id: string)
    ensures k in Put(index, key, p) && id in Put(index, key, p)[k]
       <==> (k == key && id == p.id) || (k in index && id in index[k])
  {
  }

  lemma PutAgrees<K(!new)>(index: map<K, Bucket>, live: Bucket, key: Pet -> K, p: Pet)
    requires Agrees(index, live, key) && (p.id in live ==> key(live[p.id]) == key(p))
    ensures Agrees(Put(index, key(p), p), live[p.id := p], key)
  {
    hide Covers, Put;
    PutCovers(index, live, key, p);
    var after := Put(index, key(p), p);
    forall k, id | k in after && id in after[k]
      ensures id in live[p.id := p] && key(live[p.id := p][id]) == k
    {
      EntryOfPut(index, key(p), p, k, id);
    }
  }

  lemma OldEntryStays<K(!new)>(index: map<K, Bucket>, live: Bucket, key: Pet -> K, p: Pet)
    requires Agrees(index, live, key) && p.id in live && key(live[p.id]) != key(p)
    ensures !Agrees(Put(index, key(p), p), live[p.id := p], key)
  {
    var stale := key(live[p.id]);
    assert stale in index && p.id in index[stale];
    hide Covers, Put;
    EntryOfPut(index, key(p), p, stale, p.id);
    assert key(live[p.id := p][p.id]) != stale;
  }

  /** Filing a pet keeps an agreeing index agreeing exactly when the pet is new or keeps its key. */
  lemma PutAgreesIffKeyKept<K(!new)>(index: map<K, Bucket>, live: Bucket, key: Pet -> K, p: Pet)
    requires Agrees(index, live, key)
    ensures Agrees(Put(index, key(p), p), live[p.id := p], key)
       <==> (p.id in live ==> key(live[p.id]) == key(p))
  {
    hide Covers, Agrees;
    if p.id in live && key(live[p.id]) != key(p) {
      OldEntryStays(index, live, key, p);
    } else {
      PutAgrees(index, live, key, p);
    }
  }

  lemma LeftByDrop<K(!new)>(index: map<K, Bucket>, key: K, id: string, k: K, other: string)
    requires k in Drop(index, key, id) && other in Drop(index, key, id)[k]
    ensures k in index && other in index[k] && (k == key ==> other != id)
  {
  }

  lemma DropAgrees<K(!new)>(index: map<K, Bucket>, live: Bucket, key: Pet -> K, id: string)
    requires Agrees(index, live, key) && id in live
    ensures Agrees(Drop(index, key(live[id]), id), live - {id}, key)
  {
    hide Covers, Drop;
    DropCovers(index, live, key, id);
    var after := Drop(index, key(live[id]), id);
    forall k, other | k in after && other in after[k]
      ensures other in live - {id} && key(live[other]) == k
    {
      LeftByDrop(index, key(live[id]), id, k, other);
    }
  }
}
