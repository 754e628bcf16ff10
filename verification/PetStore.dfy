/** The in-memory pet store as a value: the id map and its three indexes, the sections that
    run under the write lock, and the lock that the request handlers share. */
module PetStore {
  import opened Calendar
  import opened PetIndex

  datatype Store = Store(
    ids: Bucket,
    names: map<string, Bucket>,
    kinds: map<PetType, Bucket>,
    days: map<int, Bucket>)

  const EMPTY := Store(map[], map[], map[], map[])

  /** One turn of the populate loop. */
  function PutPet(s: Store, p: Pet): Store {
    Store(s.ids[p.id := p], Put(s.names, p.name, p), Put(s.kinds, p.kind, p), Put(s.days, DayOf(p), p))
  }

  function Populate(s: Store, pets: seq<Pet>): Store {
    if pets == [] then s else PutPet(Populate(s, pets[..|pets| - 1]), pets[|pets| - 1])
  }

  lemma PopulateOne(s: Store, p: Pet)
    ensures Populate(s, [p]) == PutPet(s, p)
  {
  }

  /** One turn of the DeletePets loop. Unknown ids are skipped. */
  function DropPet(s: Store, id: string): Store {
    if id !in s.ids then s
    else
      var p := s.ids[id];
      Store(s.ids - {id}, Drop(s.names, p.name, id), Drop(s.kinds, p.kind, id), Drop(s.days, DayOf(p), id))
  }

  function Erase(s: Store, ids: seq<string>): Store {
    if ids == [] then s else DropPet(Erase(s, ids[..|ids| - 1]), ids[|ids| - 1])
  }

  // ---- What every store reached from the empty one satisfies ----

  ghost predicate Inv(s: Store) {
    && (forall id | id in s.ids :: s.ids[id].id == id)
    && Covers(s.names, s.ids, NameOf)
    && Covers(s.kinds, s.ids, KindOf)
    && Covers(s.days, s.ids, DayOf)
  }

  /** Each index holds exactly the live pets under their own keys. */
  ghost predicate IndexesAgree(s: Store) {
    && Inv(s)
    && Agrees(s.names, s.ids, NameOf)
    && Agrees(s.kinds, s.ids, KindOf)
    && Agrees(s.days, s.ids, DayOf)
  }

  predicate SameKeys(a: Pet, b: Pet) {
    a.name == b.name && a.kind == b.kind && DayOf(a) == DayOf(b)
  }

  lemma PutPetInv(s: Store, p: Pet)
    requires Inv(s)
    ensures Inv(PutPet(s, p))
  {
    hide BirthdayToTime;
    PutCovers(s.names, s.ids, NameOf, p);
    PutCovers(s.kinds, s.ids, KindOf, p);
    PutCovers(s.days, s.ids, DayOf, p);
  }

  lemma DropPetInv(s: Store, id: string)
    requires Inv(s)
    ensures Inv(DropPet(s, id))
  {
    hide BirthdayToTime;
    if id in s.ids {
      DropCovers(s.names, s.ids, NameOf, id);
      DropCovers(s.kinds, s.ids, KindOf, id);
      DropCovers(s.days, s.ids, DayOf, id);
    }
  }

  /** An add or update keeps the indexes in agreement exactly when the pet is new or keeps
      its name, type and day: populate never removes an entry filed under an old key. */
  lemma PutPetAgreesIffKeysKept(s: Store, p: Pet)
    requires IndexesAgree(s)
    ensures IndexesAgree(PutPet(s, p)) <==> (p.id in s.ids ==> SameKeys(s.ids[p.id], p))
  {
    hide BirthdayToTime;
    PutPetInv(s, p);
    PutAgreesIffKeyKept(s.names, s.ids, NameOf, p);
    PutAgreesIffKeyKept(s.kinds, s.ids, KindOf, p);
    PutAgreesIffKeyKept(s.days, s.ids, DayOf, p);
  }

  lemma DropPetAgrees(s: Store, id: string)
    requires IndexesAgree(s)
    ensures IndexesAgree(DropPet(s, id))
  {
    hide BirthdayToTime;
    DropPetInv(s, id);
    if id in s.ids {
      DropAgrees(s.names, s.ids, NameOf, id);
      DropAgrees(s.kinds, s.ids, KindOf, id);
      DropAgrees(s.days, s.ids, DayOf, id);
    }
  }

  lemma {:induction false} PopulateInv(s: Store, pets: seq<Pet>)
    requires Inv(s)
    ensures Inv(Populate(s, pets))
  {
    if pets != [] {
      PopulateInv(s, pets[..|pets| - 1]);
      PutPetInv(Populate(s, pets[..|pets| - 1]), pets[|pets| - 1]);
    }
  }

  lemma {:induction false} EraseInv(s: Store, ids: seq<string>)
    requires Inv(s)
    ensures Inv(Erase(s, ids))
  {
    if ids != [] {
      EraseInv(s, ids[..|ids| - 1]);
      DropPetInv(Erase(s, ids[..|ids| - 1]), ids[|ids| - 1]);
    }
  }

  predicate KeepsKeys(s: Store, pets: seq<Pet>) {
    forall i | 0 <= i < |pets| && pets[i].id in s.ids :: SameKeys(s.ids[pets[i].id], pets[i])
  }

  predicate DistinctIds(pets: seq<Pet>) {
    forall i, j | 0 <= i < j < |pets| :: pets[i].id != pets[j].id
  }

  predicate Lists(pets: seq<Pet>, id: string) {
    exists i :: 0 <= i < |pets| && pets[i].id == id
  }

  lemma {:induction false} PopulatedId(s: Store, pets: seq<Pet>, id: string)
    ensures id in Populate(s, pets).ids <==> id in s.ids || Lists(pets, id)
    ensures id in s.ids && !Lists(pets, id) ==> Populate(s, pets).ids[id] == s.ids[id]
  {
    if pets != [] {
      var front, p := pets[..|pets| - 1], pets[|pets| - 1];
      assert pets == front + [p];
      assert Lists(pets, id) <==> Lists(front, id) || p.id == id;
      hide Lists;
      PopulatedId(s, front, id);
    }
  }

  /** The last pet of a batch with an id is the one that is stored. */
  lemma {:induction false} PopulatedPet(s: Store, pets: seq<Pet>, i: nat)
    requires i < |pets| && forall j | i < j < |pets| :: pets[j].id != pets[i].id
    ensures pets[i].id in Populate(s, pets).ids && Populate(s, pets).ids[pets[i].id] == pets[i]
  {
    var n := |pets| - 1;
    if i < n {
      assert pets[..n][i] == pets[i];
      PopulatedPet(s, pets[..n], i);
    }
  }

  /** What a batch leaves: of each id the last pet that has it, and every other pet as it was. */
  ghost predicate Overlaid(before: Store, pets: seq<Pet>, after: Store) {
    && (forall i | 0 <= i < |pets| && (forall j | i < j < |pets| :: pets[j].id != pets[i].id) ::
          pets[i].id in after.ids && after.ids[pets[i].id] == pets[i])
    && (forall id | (forall p | p in pets :: p.id != id) ::
          (id in after.ids <==> id in before.ids) && (id in before.ids ==> after.ids[id] == before.ids[id]))
  }

  lemma PopulateOverlays(s: Store, pets: seq<Pet>)
    ensures Overlaid(s, pets, Populate(s, pets))
  {
    var after := Populate(s, pets);
    forall i | 0 <= i < |pets| && (forall j | i < j < |pets| :: pets[j].id != pets[i].id)
      ensures pets[i].id in after.ids && after.ids[pets[i].id] == pets[i]
    {
      PopulatedPet(s, pets, i);
    }
    forall id | (forall p | p in pets :: p.id != id)
      ensures (id in after.ids <==> id in s.ids) && (id in s.ids ==> after.ids[id] == s.ids[id])
    {
      PopulatedId(s, pets, id);
    }
  }

  /** What a deletion leaves: every pet that it does not name, as it was. */
  ghost predicate Erased(before: Store, ids: seq<string>, after: Store) {
    && (forall id :: id in after.ids <==> id in before.ids && id !in ids)
    && (forall id | id in after.ids :: after.ids[id] == before.ids[id])
  }

  lemma {:induction false} EraseErases(s: Store, ids: seq<string>)
    ensures Erased(s, ids, Erase(s, ids))
  {
    if ids != [] {
      EraseErases(s, ids[..|ids| - 1]);
      assert ids == ids[..|ids| - 1] + [ids[|ids| - 1]];
    }
  }

  lemma PopulateIds(s: Store, pets: seq<Pet>)
    ensures forall id | id in Populate(s, pets).ids ::
              || (id in s.ids && Populate(s, pets).ids[id] == s.ids[id])
              || exists i :: 0 <= i < |pets| && pets[i].id == id
    ensures forall i | 0 <= i < |pets| :: pets[i].id in Populate(s, pets).ids
    ensures forall id | id in s.ids :: id in Populate(s, pets).ids
  {
    forall id | id in Populate(s, pets).ids && !Lists(pets, id)
      ensures id in s.ids && Populate(s, pets).ids[id] == s.ids[id]
    {
      PopulatedId(s, pets, id);
    }
    forall i | 0 <= i < |pets| ensures pets[i].id in Populate(s, pets).ids {
      PopulatedId(s, pets, pets[i].id);
    }
    forall id | id in s.ids ensures id in Populate(s, pets).ids {
      PopulatedId(s, pets, id);
    }
  }

  /** Adding fresh pets, and updating pets without changing a key, keep the indexes in agreement. */
  lemma {:induction false} PopulateAgrees(s: Store, pets: seq<Pet>)
    requires IndexesAgree(s) && DistinctIds(pets) && KeepsKeys(s, pets)
    ensures IndexesAgree(Populate(s, pets))
  {
    hide IndexesAgree, SameKeys, PutPet;
    if pets != [] {
      var front, p := pets[..|pets| - 1], pets[|pets| - 1];
      PopulateAgrees(s, front);
      PopulateIds(s, front);
      PutPetAgreesIffKeysKept(Populate(s, front), p);
    }
  }

  lemma {:induction false} EraseAgrees(s: Store, ids: seq<string>)
    requires IndexesAgree(s)
    ensures IndexesAgree(Erase(s, ids))
  {
    if ids != [] {
      EraseAgrees(s, ids[..|ids| - 1]);
      DropPetAgrees(Erase(s, ids[..|ids| - 1]), ids[|ids| - 1]);
    }
  }

  // ---- Runs ----

  /** A write-locked section. AddPets and UpdatePets check their ids under a read lock that
      they give up before populating, so in a concurrent run any populate may follow any other
      section: a run of handlers is a run of sections, whatever the checks saw. */
  datatype Section = Populating(pets: seq<Pet>) | Erasing(ids: seq<string>)

  function RunSection(s: Store, section: Section): Store {
    match section
    case Populating(pets) => Populate(s, pets)
    case Erasing(ids) => Erase(s, ids)
  }

  function RunSections(s: Store, sections: seq<Section>): Store {
    if sections == [] then s
    else RunSection(RunSections(s, sections[..|sections| - 1]), sections[|sections| - 1])
  }

  lemma {:induction false} EveryRunInv(sections: seq<Section>)
    ensures Inv(RunSections(EMPTY, sections))
  {
    if sections != [] {
      var before := RunSections(EMPTY, sections[..|sections| - 1]);
      EveryRunInv(sections[..|sections| - 1]);
      match sections[|sections| - 1]
      case Populating(pets) => PopulateInv(before, pets);
      case Erasing(ids) => EraseInv(before, ids);
    }
  }

  /** Every batch of a run is of distinct pets that are new or keep their keys. */
  predicate RunKeepsKeys(s: Store, sections: seq<Section>) {
    forall i | 0 <= i < |sections| && sections[i].Populating? ::
      DistinctIds(sections[i].pets) && KeepsKeys(RunSections(s, sections[..i]), sections[i].pets)
  }

  lemma {:induction false} KeyKeepingRunsAgree(sections: seq<Section>)
    requires RunKeepsKeys(EMPTY, sections)
    ensures IndexesAgree(RunSections(EMPTY, sections))
  {
    if sections != [] {
      var n := |sections| - 1;
      forall i | 0 <= i < n ensures sections[..n][..i] == sections[..i] {}
      KeyKeepingRunsAgree(sections[..n]);
      var before := RunSections(EMPTY, sections[..n]);
      match sections[n]
      case Populating(pets) => PopulateAgrees(before, pets);
      case Erasing(ids) => EraseAgrees(before, ids);
    }
  }

  // ---- Requests and the read-write lock ----

  /** A rejected batch returns with the read lock held. The next writer then waits for that
      reader for ever, and a waiting writer keeps every later reader out as well. */
  datatype Lock = Free | ReadLeaked | WriterWaiting

  datatype Server = Server(store: Store, lock: Lock)

  datatype Outcome = Done | Rejected(id: string) | Blocked

  datatype Request = AddPets(pets: seq<Pet>) | UpdatePets(pets: seq<Pet>) | DeletePets(ids: seq<string>)

  /** Index of the first pet whose presence in the id map differs from the one wanted. */
  function FirstBad(s: Store, pets: seq<Pet>, wanted: bool): (i: nat)
    ensures i <= |pets|
    ensures forall j | 0 <= j < i :: (pets[j].id in s.ids) == wanted
    ensures i < |pets| ==> (pets[i].id in s.ids) != wanted
  {
    if pets == [] || (pets[0].id in s.ids) != wanted then 0 else 1 + FirstBad(s, pets[1..], wanted)
  }

  function Write(server: Server, after: Store): (Server, Outcome) {
    if server.lock == Free then (server.(store := after), Done)
    else (server.(lock := WriterWaiting), Blocked)
  }

  function CheckedPopulate(server: Server, pets: seq<Pet>, wanted: bool): (Server, Outcome) {
    var bad := FirstBad(server.store, pets, wanted);
    if server.lock == WriterWaiting then (server, Blocked)
    else if bad < |pets| then (server.(lock := ReadLeaked), Rejected(pets[bad].id))
    else Write(server, Populate(server.store, pets))
  }

  function Serve(server: Server, request: Request): (Server, Outcome) {
    match request
    case AddPets(pets) => CheckedPopulate(server, pets, false)
    case UpdatePets(pets) => CheckedPopulate(server, pets, true)
    case DeletePets(ids) => Write(server, Erase(server.store, ids))
  }

  function ServeAll(server: Server, requests: seq<Request>): Server
    decreases requests
  {
    if requests == [] then server else ServeAll(Serve(server, requests[0]).0, requests[1..])
  }

  /** After one rejected batch no request ever changes the store again, and a second write
      leaves every request blocked. */
  lemma {:induction false} RejectionFreezesStore(server: Server, requests: seq<Request>)
    requires server.lock != Free
    ensures ServeAll(server, requests).store == server.store
    ensures ServeAll(server, requests).lock != Free
    ensures server.lock == WriterWaiting ==> ServeAll(server, requests) == server
    decreases requests
  {
    if requests != [] {
      RejectionFreezesStore(Serve(server, requests[0]).0, requests[1..]);
    }
  }

  /** A request succeeds exactly when the lock is free and, for a batch, every id is absent
      (add) or present (update). Anything else leaves the store alone and the lock unusable. */
  lemma DoneIffAccepted(server: Server, request: Request)
    ensures Serve(server, request).1 == Done <==>
            && server.lock == Free
            && (request.AddPets? ==> forall p | p in request.pets :: p.id !in server.store.ids)
            && (request.UpdatePets? ==> forall p | p in request.pets :: p.id in server.store.ids)
    ensures Serve(server, request).1 != Done ==>
              Serve(server, request).0.store == server.store && Serve(server, request).0.lock != Free
  {
  }

  /** A request that succeeds has done just what it asks for: a batch is stored, whatever was there
      under its ids, the named pets are gone, and every other pet is as it was. */
  lemma DoneMeansStored(server: Server, request: Request)
    requires Serve(server, request).1 == Done
    ensures !request.DeletePets? ==> Overlaid(server.store, request.pets, Serve(server, request).0.store)
    ensures request.DeletePets? ==> Erased(server.store, request.ids, Serve(server, request).0.store)
    ensures Serve(server, request).0.lock == Free
  {
    hide Overlaid, Erased;
    if request.DeletePets? {
      EraseErases(server.store, request.ids);
    } else {
      PopulateOverlays(server.store, request.pets);
    }
  }

  /** A rejection names the first pet whose id is there and should not be, or the reverse. */
  lemma RejectionNamesFirst(server: Server, request: Request)
    requires Serve(server, request).1.Rejected?
    ensures !request.DeletePets? && Serve(server, request).0 == server.(lock := ReadLeaked)
    ensures exists i :: 0 <= i < |request.pets|
              && Serve(server, request).1.id == request.pets[i].id
              && (request.pets[i].id in server.store.ids <==> request.AddPets?)
              && forall j | 0 <= j < i :: request.pets[j].id in server.store.ids <==> request.UpdatePets?
  {
    var i := FirstBad(server.store, request.pets, request.UpdatePets?);
    assert Serve(server, request).1.id == request.pets[i].id;
  }
}
