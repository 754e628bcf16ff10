/** The Kubernetes controller that keeps one pet of the store in step with a custom resource. */
module PetController {
  import opened Calendar
  import opened PetIndex
  import opened PetStore
  import opened PetSearch
  import opened PetValidation
  import opened Text
  import opened MemData

  const PET_FINALIZER := "pet.petstore.example.com"

  /** The spec's birthday is a time.Time, so its date is real. */
  datatype Spec = Spec(name: string, kind: string, birthday: Date)

  datatype Resource = Resource(spec: Spec, id: string, finalizers: seq<string>)

  /** What the outside does to one pass: whether the client can be made, whether the search call
      is answered, how many items its result stream delivers before it breaks, whether the write
      reaches the store, and whether its reply arrives. `uuid` is the id the server draws for a
      new pet. For a stale id the server sends a nil item: under `nilEnds` the codec refuses it
      and the stream ends there, otherwise it arrives as an empty item. */
  datatype Network = Network(
    connects: bool, searches: bool, delivers: nat, nilEnds: bool, written: bool, replied: bool, uuid: string)

  function PetTypeOf(kind: string): PetType {
    if kind == "dog" then 1 else if kind == "cat" then 2 else if kind == "bird" then 3 else 4
  }

  function AddFinalizer(finalizers: seq<string>): seq<string> {
    if PET_FINALIZER in finalizers then finalizers else finalizers + [PET_FINALIZER]
  }

  function RemoveFinalizer(finalizers: seq<string>): (rest: seq<string>)
    ensures PET_FINALIZER !in rest
  {
    if finalizers == [] then []
    else if finalizers[0] == PET_FINALIZER then RemoveFinalizer(finalizers[1..])
    else [finalizers[0]] + RemoveFinalizer(finalizers[1..])
  }

  /** Taking the finalizer away takes its copies only: every stretch without it stays as it is,
      in its place. */
  lemma {:induction false} OtherFinalizersStay(before: seq<string>, after: seq<string>)
    ensures PET_FINALIZER !in before ==> RemoveFinalizer(before) == before
    ensures RemoveFinalizer(before + [PET_FINALIZER] + after) == RemoveFinalizer(before) + RemoveFinalizer(after)
    decreases |before|
  {
    if before == [] {
      assert before + [PET_FINALIZER] + after == [PET_FINALIZER] + after;
    } else {
      var all := before + [PET_FINALIZER] + after;
      OtherFinalizersStay(before[1..], after);
      assert all[0] == before[0] && all[1..] == before[1..] + [PET_FINALIZER] + after;
      assert before == [before[0]] + before[1..];
    }
  }

  lemma {:induction false} OtherFinalizersCounted(finalizers: seq<string>, other: string)
    requires other != PET_FINALIZER
    ensures multiset(RemoveFinalizer(finalizers))[other] == multiset(finalizers)[other]
  {
    if finalizers != [] {
      OtherFinalizersCounted(finalizers[1..], other);
      assert finalizers == [finalizers[0]] + finalizers[1..];
    }
  }

  /** The types of the API are the numbers of the protocol: PTCanine, PTFeline, PTBird and, for
      any other word, PTReptile. */
  lemma TypesOfTheProtocol(kind: string)
    ensures 1 <= PetTypeOf(kind) <= 4
    ensures PetTypeOf(kind) == 1 <==> kind == "dog"
    ensures PetTypeOf(kind) == 2 <==> kind == "cat"
    ensures PetTypeOf(kind) == 3 <==> kind == "bird"
  {
  }

  function Wanted(spec: Spec): Filter {
    Filter([spec.name], [PetTypeOf(spec.kind)], Any)
  }

  function Desired(spec: Spec, id: string): Pet {
    Pet(id, spec.name, PetTypeOf(spec.kind), spec.birthday)
  }

  /** The item at place k of what the search sends reaches the controller. */
  predicate Arrives(s: Store, net: Network, sent: seq<string>, k: nat)
    requires k < |sent|
  {
    k < net.delivers && (net.nilEnds ==> forall j | 0 <= j <= k :: sent[j] in s.ids)
  }

  /** The id that an item arrives with: an empty item has an empty id. */
  function ArrivingId(s: Store, id: string): string {
    if id in s.ids then id else ""
  }

  /** An item with the id of the status arrives. An empty item has that of a status without one. */
  predicate Finds(s: Store, r: Resource, net: Network, sent: seq<string>) {
    exists k | 0 <= k < |sent| :: Arrives(s, net, sent, k) && ArrivingId(s, sent[k]) == r.id
  }

  /** createPetInStore: the server validates, draws an id and adds. A lost reply is an error
      after the fact, and leaves the status without the id. */
  function Create(server: Server, r: Resource, net: Network): (Server, Resource, bool) {
    match ValidatePet(Desired(r.spec, ""), false)
    case Invalid(_) => (server, r, false)
    case Valid(p) =>
      if !net.written then (server, r, false)
      else
        var (after, outcome) := Serve(server, PetStore.AddPets([p.(id := net.uuid)]));
        if outcome == Done && net.replied then (after, r.(id := net.uuid), true) else (after, r, false)
  }

  /** updatePetInStore on the pet that the search returned. */
  function Update(server: Server, r: Resource, net: Network): (Server, Resource, bool) {
    match ValidatePet(Desired(r.spec, r.id), true)
    case Invalid(_) => (server, r, false)
    case Valid(p) =>
      if !net.written then (server, r, false)
      else
        var (after, outcome) := Serve(server, PetStore.UpdatePets([p]));
        (after, r, outcome == Done && net.replied)
  }

  /** ReconcileNormal, with `sent` what the search sends; the boolean is the absence of an
      error. A broken result stream is only logged, so it reads as an absent pet. */
  function Reconcile(server: Server, r: Resource, net: Network, sent: seq<string>): (Server, Resource, bool) {
    var kept := r.(finalizers := AddFinalizer(r.finalizers));
    if !net.connects || !net.searches || server.lock == WriterWaiting then (server, kept, false)
    else if Finds(server.store, r, net, sent) then Update(server, kept, net)
    else Create(server, kept, net)
  }

  /** ReconcileDelete. */
  function ReconcileGone(server: Server, r: Resource, net: Network): (Server, Resource, bool) {
    if !net.connects then (server, r, false)
    else if r.id == "" then (server, r.(finalizers := RemoveFinalizer(r.finalizers)), true)
    else if !net.written then (server, r, false)
    else
      var (after, outcome) := Serve(server, PetStore.DeletePets([r.id]));
      if outcome == Done && net.replied
      then (after, r.(finalizers := RemoveFinalizer(r.finalizers)), true)
      else (after, r, false)
  }

  /** Every call of the pass gets through to the store. */
  predicate Reaches(net: Network) {
    net.connects && net.searches && net.written
  }

  // ---- The store the controller works on ----

  /** The two indexes the controller searches hold exactly the live pets, and every pet
      entered through validation. The birthday index may have stale entries. */
  ghost predicate Usable(server: Server) {
    && server.lock == Free
    && Inv(server.store)
    && Agrees(server.store.names, server.store.ids, NameOf)
    && Agrees(server.store.kinds, server.store.ids, KindOf)
    && forall id | id in server.store.ids :: WellFormed(server.store.ids[id])
  }

  predicate Fresh(server: Server, r: Resource, uuid: string) {
    uuid != "" && uuid !in server.store.ids && uuid != r.id
  }

  /** The stream lives to deliver the item of an id. */
  predicate Delivers(net: Network, sent: seq<string>, id: string) {
    exists k | 0 <= k < |sent| :: k < net.delivers && sent[k] == id
  }

  /** The pet of the status is stored with the name and the type of the spec. */
  predicate SameNameAndKind(server: Server, r: Resource) {
    && r.id in server.store.ids
    && server.store.ids[r.id].name == r.spec.name
    && server.store.ids[r.id].kind == PetTypeOf(r.spec.kind)
  }

  lemma FoundIffSameNameAndKind(server: Server, r: Resource, net: Network, sent: seq<string>)
    requires Usable(server) && Sends(server.store, Wanted(r.spec), sent)
    ensures Finds(server.store, r, net, sent) <==> SameNameAndKind(server, r) && Delivers(net, sent, r.id)
  {
    hide Usable, Sends, Wanted;
    var s, f := server.store, Wanted(r.spec);
    forall k | 0 <= k < |sent| ensures sent[k] in s.ids && SameNameAndKind(server, r.(id := sent[k])) {
      SentIffSelected(s, f, sent, sent[k]);
      SelectedIffSameNameAndKind(server, r.spec, sent[k]);
    }
    hide SameNameAndKind;
    if k :| 0 <= k < |sent| && k < net.delivers && sent[k] == r.id {
      assert Arrives(s, net, sent, k);
    }
  }

  lemma SelectedIffSameNameAndKind(server: Server, spec: Spec, id: string)
    requires Usable(server)
    ensures Selected(server.store, Wanted(spec), id) <==>
            && id in server.store.ids
            && server.store.ids[id].name == spec.name
            && server.store.ids[id].kind == PetTypeOf(spec.kind)
  {
    hide BirthdayToTime;
    var s, f := server.store, Wanted(spec);
    HitsAreOccurrences(s.names, s.ids, NameOf, f.names, id);
    HitsAreOccurrences(s.kinds, s.ids, KindOf, f.kinds, id);
    assert DaysListing(s.days, Any, id) == {};
  }

  lemma PutUsable(server: Server, p: Pet)
    requires Usable(server) && WellFormed(p)
    requires p.id in server.store.ids ==>
               server.store.ids[p.id].name == p.name && server.store.ids[p.id].kind == p.kind
    ensures Usable(server.(store := PutPet(server.store, p)))
  {
    hide BirthdayToTime, WellFormed;
    PutPetInv(server.store, p);
    PutAgreesIffKeyKept(server.store.names, server.store.ids, NameOf, p);
    PutAgreesIffKeyKept(server.store.kinds, server.store.ids, KindOf, p);
  }

  /** Putting back what is already there changes nothing. */
  lemma PutSamePet(s: Store, p: Pet)
    requires Inv(s) && p.id in s.ids && s.ids[p.id] == p
    ensures PutPet(s, p) == s
  {
    hide BirthdayToTime, SortTime;
    assert NameOf(p) in s.names && p.id in s.names[NameOf(p)] && s.names[NameOf(p)][p.id] == p;
    assert KindOf(p) in s.kinds && p.id in s.kinds[KindOf(p)] && s.kinds[KindOf(p)][p.id] == p;
    assert DayOf(p) in s.days && p.id in s.days[DayOf(p)] && s.days[DayOf(p)][p.id] == p;
    hide Inv;
    PutBack(s.names, NameOf(p), p);
    PutBack(s.kinds, KindOf(p), p);
    PutBack(s.days, DayOf(p), p);
    assert s.ids[p.id := p] == s.ids;
  }

  lemma PutBack<K>(index: map<K, Bucket>, key: K, p: Pet)
    requires key in index && p.id in index[key] && index[key][p.id] == p
    ensures Put(index, key, p) == index
  {
    var bucket := index[key];
    assert bucket[p.id := p] == bucket;
  }

  lemma CreateAdds(server: Server, r: Resource, net: Network)
    requires Usable(server) && IsRealDate(r.spec.birthday) && Fresh(server, r, net.uuid)
    requires Trim(r.spec.name) != "" && net.written
    ensures var p := Desired(r.spec, net.uuid).(name := Trim(r.spec.name));
            && Create(server, r, net).0 == server.(store := PutPet(server.store, p))
            && Create(server, r, net).1 == (if net.replied then r.(id := net.uuid) else r)
            && Usable(Create(server, r, net).0)
  {
    hide BirthdayToTime, Covers, Put;
    var p := Desired(r.spec, net.uuid).(name := Trim(r.spec.name));
    ValidationIsExact(Desired(r.spec, ""), false);
    BlankIffAllSpace(r.spec.name);
    TrimTwice(r.spec.name);
    PopulateOne(server.store, p);
    PutUsable(server, p);
  }

  lemma UpdateSets(server: Server, r: Resource, net: Network)
    requires Usable(server) && IsRealDate(r.spec.birthday) && SameNameAndKind(server, r) && r.id != ""
    requires net.written
    ensures Update(server, r, net).0 == server.(store := PutPet(server.store, Desired(r.spec, r.id)))
    ensures Update(server, r, net).1 == r
    ensures Usable(Update(server, r, net).0)
  {
    hide BirthdayToTime, Covers, Put;
    var p := Desired(r.spec, r.id);
    ValidationIsExact(p, true);
    assert p.(name := Trim(p.name)) == p;
    PopulateOne(server.store, p);
    PutUsable(server, p);
  }

  /** The server never draws the empty id, so no stored pet has it. */
  ghost predicate NoEmptyId(server: Server) {
    "" !in server.store.ids
  }

  /** The controller settles. A second pass leaves store, status and finalizers as the first
      pass left them exactly when the name is blank (nothing is ever created), or one of its
      calls does not get through, or the name needs no trimming, the second search stream
      delivers the pet of the status, and that pet is as the spec wants it: the first pass got
      through and learned the id of the pet it created, or found and updated the pet, or the
      pet was so all along. Otherwise a pet is added or changed. */
  lemma SecondPassChangesNothingIff(
      server: Server, r: Resource, net1: Network, sent1: seq<string>, net2: Network, sent2: seq<string>)
    requires Usable(server) && NoEmptyId(server) && IsRealDate(r.spec.birthday)
    requires Fresh(server, r, net1.uuid) && Sends(server.store, Wanted(r.spec), sent1)
    requires var (server1, r1, _) := Reconcile(server, r, net1, sent1);
             Fresh(server1, r1, net2.uuid) && Sends(server1.store, Wanted(r.spec), sent2)
    ensures var (server1, r1, _) := Reconcile(server, r, net1, sent1);
            var (server2, r2, _) := Reconcile(server1, r1, net2, sent2);
            (server2 == server1 && r2 == r1) <==>
              || Trim(r.spec.name) == ""
              || !Reaches(net2)
              || (&& Trim(r.spec.name) == r.spec.name
                  && Delivers(net2, sent2, r1.id)
                  && (|| AsWanted(server, r)
                      || (Reaches(net1) && (net1.replied || Finds(server.store, r, net1, sent1)))))
  {
    hide BirthdayToTime, Covers, Put, Create, Update, Finds, Delivers, ValidatePet, Sends;
    var kept := r.(finalizers := AddFinalizer(r.finalizers));
    var (server1, r1, _) := Reconcile(server, r, net1, sent1);
    FoundIffSameNameAndKind(server, r, net1, sent1);
    if Trim(r.spec.name) == "" {
      BlankNameWritesNothing(server, kept, net1, sent1);
      BlankNameWritesNothing(server, r1, net2, sent2);
    } else {
      if !Reaches(net1) {
        if !net1.written {
          UnreachedChangesNothing(server, kept, net1);
        }
      } else if Finds(server.store, r, net1, sent1) {
        UpdateSets(server, kept, net1);
      } else {
        CreateAdds(server, kept, net1);
      }
      SecondPass(server1, r1, net2, sent2);
    }
  }

  lemma UnreachedChangesNothing(server: Server, r: Resource, net: Network)
    requires !net.written
    ensures Create(server, r, net) == (server, r, false) && Update(server, r, net) == (server, r, false)
  {
  }

  /** The status names a pet of the store that is already as the spec wants it. */
  predicate AsWanted(server: Server, r: Resource) {
    r.id in server.store.ids && server.store.ids[r.id] == Desired(r.spec, r.id)
  }

  lemma BlankNameWritesNothing(server: Server, r: Resource, net: Network, sent: seq<string>)
    requires Usable(server) && Trim(r.spec.name) == "" && Sends(server.store, Wanted(r.spec), sent)
    ensures !Finds(server.store, r, net, sent)
    ensures Create(server, r, net) == (server, r, false)
  {
    hide BirthdayToTime;
    FoundIffSameNameAndKind(server, r, net, sent);
    ValidationIsExact(Desired(r.spec, ""), false);
    BlankIffAllSpace(r.spec.name);
  }

  /** A pass over a resource that has its finalizer changes nothing exactly when it does not get
      through, or its search delivers a pet that is already as wanted. */
  lemma SecondPass(server: Server, r: Resource, net: Network, sent: seq<string>)
    requires Usable(server) && NoEmptyId(server) && IsRealDate(r.spec.birthday)
    requires Trim(r.spec.name) != "" && PET_FINALIZER in r.finalizers
    requires Fresh(server, r, net.uuid) && Sends(server.store, Wanted(r.spec), sent)
    ensures var (server2, r2, _) := Reconcile(server, r, net, sent);
            (server2 == server && r2 == r)
              <==> !Reaches(net) || (AsWanted(server, r) && Delivers(net, sent, r.id))
  {
    hide BirthdayToTime, Covers, Put, Create, Update, Finds, Delivers, ValidatePet, Sends;
    FoundIffSameNameAndKind(server, r, net, sent);
    if !Reaches(net) {
      if !net.written {
        UnreachedChangesNothing(server, r, net);
      }
    } else if Finds(server.store, r, net, sent) {
      UpdateSets(server, r, net);
      if AsWanted(server, r) {
        PutSamePet(server.store, Desired(r.spec, r.id));
      }
    } else {
      CreateAdds(server, r, net);
    }
  }

  /** The pet of the status is stored as the spec says, its name without outer white space. */
  ghost predicate StoredAsSpec(after: Server, r: Resource) {
    r.id in after.store.ids &&
    var p := after.store.ids[r.id];
    p.id == r.id && IsTrimmed(r.spec.name, p.name) && p.kind == PetTypeOf(r.spec.kind) && p.birthday == r.spec.birthday
  }

  ghost predicate OthersAreKept(before: Server, id: string, after: Server) {
    forall other | other in before.store.ids && other != id ::
      other in after.store.ids && after.store.ids[other] == before.store.ids[other]
  }

  /** A pass succeeds exactly when its calls get through, the reply arrives and the name is not
      blank, and then the pet of the status is stored as the spec says. It always leaves the
      finalizer in place, after those that were there, the spec alone and every other pet as it
      was. */
  lemma PassSucceedsIff(server: Server, r: Resource, net: Network, sent: seq<string>)
    requires Usable(server) && NoEmptyId(server) && IsRealDate(r.spec.birthday)
    requires Fresh(server, r, net.uuid) && Sends(server.store, Wanted(r.spec), sent)
    ensures var (after, r2, ok) := Reconcile(server, r, net, sent);
            && (ok <==> Reaches(net) && net.replied && !AllSpace(r.spec.name))
            && (ok ==> StoredAsSpec(after, r2))
            && OthersAreKept(server, r2.id, after)
            && r2.spec == r.spec
            && r2.finalizers == r.finalizers + (if PET_FINALIZER in r.finalizers then [] else [PET_FINALIZER])
  {
    assert server.lock == Free;
    hide BirthdayToTime, Usable, Create, Update, Finds, Delivers, Sends, StoredAsSpec, Wanted, AllSpace, IsRealDate;
    var kept := r.(finalizers := AddFinalizer(r.finalizers));
    FoundIffSameNameAndKind(server, r, net, sent);
    BlankIffAllSpace(r.spec.name);
    if !Reaches(net) {
      if !net.written {
        UnreachedChangesNothing(server, kept, net);
      }
    } else if Finds(server.store, r, net, sent) {
      UpdateOutcome(server, kept, net);
    } else if AllSpace(r.spec.name) {
      BlankNameWritesNothing(server, kept, net, sent);
    } else {
      CreateOutcome(server, kept, net);
    }
  }

  /** With a leaked read lock no pass succeeds or changes the store. A search still gets through,
      and the first pass that goes on to create its pet waits for the write lock, behind which every
      later search waits too. */
  lemma LeakFailsPass(server: Server, r: Resource, net: Network, sent: seq<string>)
    requires server.lock != Free && IsRealDate(r.spec.birthday) && net.uuid !in server.store.ids
    ensures var (after, r2, ok) := Reconcile(server, r, net, sent);
            && !ok && after.store == server.store && r2.id == r.id
            && (server.lock == WriterWaiting ==> after == server)
            && (server.lock == ReadLeaked && Reaches(net) && !AllSpace(r.spec.name)
                && !Finds(server.store, r, net, sent) ==>
                  after.lock == WriterWaiting)
  {
    hide BirthdayToTime, Finds, Serve, ValidatePet, AllSpace, IsRealDate, IsTrimmed;
    ValidationIsExact(Desired(r.spec, ""), false);
    var v := ValidatePet(Desired(r.spec, ""), false);
    if v.Valid? {
      LockedServe(server, PetStore.AddPets([v.pet.(id := net.uuid)]));
    }
    var w := ValidatePet(Desired(r.spec, r.id), true);
    if w.Valid? {
      LockedServe(server, PetStore.UpdatePets([w.pet]));
    }
  }

  lemma LockedServe(server: Server, request: Request)
    requires server.lock != Free
    ensures Serve(server, request).1 != Done && Serve(server, request).0.store == server.store
    ensures server.lock == ReadLeaked && request.AddPets?
            && (forall p | p in request.pets :: p.id !in server.store.ids) ==>
              Serve(server, request).0.lock == WriterWaiting
  {
    DoneIffAccepted(server, request);
  }

  lemma PutKeepsOthers(before: Server, p: Pet, id: string)
    requires id == p.id || p.id !in before.store.ids
    ensures OthersAreKept(before, id, before.(store := PutPet(before.store, p)))
  {
    hide Put, SortTime;
  }

  lemma PutStoresAsSpec(before: Server, p: Pet, r: Resource)
    requires p.id == r.id && p.kind == PetTypeOf(r.spec.kind) && p.birthday == r.spec.birthday
    requires p.name == Trim(r.spec.name)
    ensures StoredAsSpec(before.(store := PutPet(before.store, p)), r)
  {
    hide Put, SortTime, IsTrimmed, Trim;
    TrimIsTheMiddle(r.spec.name, p.name);
  }

  lemma CreateOutcome(server: Server, r: Resource, net: Network)
    requires Usable(server) && IsRealDate(r.spec.birthday) && Fresh(server, r, net.uuid)
    requires !AllSpace(r.spec.name) && net.written
    ensures var (after, r2, ok) := Create(server, r, net);
            && (ok <==> net.replied) && (ok ==> StoredAsSpec(after, r2)) && OthersAreKept(server, r2.id, after)
            && r2.spec == r.spec && r2.finalizers == r.finalizers
  {
    assert server.lock == Free;
    hide BirthdayToTime, Usable, Create, PutPet, AllSpace, IsRealDate, Trim, PetTypeOf, StoredAsSpec, OthersAreKept;
    BlankIffAllSpace(r.spec.name);
    CreateSucceedsIff(server, r, net);
    CreateAdds(server, r, net);
    var p := Desired(r.spec, net.uuid).(name := Trim(r.spec.name));
    PutKeepsOthers(server, p, Create(server, r, net).1.id);
    PutStoresAsSpec(server, p, r.(id := net.uuid));
  }

  lemma UpdateOutcome(server: Server, r: Resource, net: Network)
    requires Usable(server) && IsRealDate(r.spec.birthday) && SameNameAndKind(server, r) && r.id != ""
    requires net.written
    ensures var (after, r2, ok) := Update(server, r, net);
            && (ok <==> net.replied) && StoredAsSpec(after, r2) && OthersAreKept(server, r2.id, after) && r2 == r
            && !AllSpace(r.spec.name)
  {
    assert WellFormed(server.store.ids[r.id]);
    hide BirthdayToTime, Usable, Update, PutPet, AllSpace, IsRealDate, Trim, PetTypeOf, StoredAsSpec, OthersAreKept;
    BlankIffAllSpace(r.spec.name);
    UpdateSucceedsIff(server, r, net);
    UpdateSets(server, r, net);
    PutKeepsOthers(server, Desired(r.spec, r.id), r.id);
    PutStoresAsSpec(server, Desired(r.spec, r.id), r);
  }

  lemma CreateSucceedsIff(server: Server, r: Resource, net: Network)
    requires server.lock == Free && IsRealDate(r.spec.birthday) && Fresh(server, r, net.uuid)
    requires !AllSpace(r.spec.name) && net.written
    ensures Create(server, r, net).2 <==> net.replied
  {
    hide BirthdayToTime, Serve, Inv, AllSpace, IsRealDate, ValidatePet, IsTrimmed;
    ValidationIsExact(Desired(r.spec, ""), false);
    var p := ValidatePet(Desired(r.spec, ""), false).pet;
    DoneIffAccepted(server, PetStore.AddPets([p.(id := net.uuid)]));
  }

  lemma UpdateSucceedsIff(server: Server, r: Resource, net: Network)
    requires Usable(server) && IsRealDate(r.spec.birthday) && SameNameAndKind(server, r) && r.id != ""
    requires net.written
    ensures Update(server, r, net).2 <==> net.replied
  {
    assert WellFormed(server.store.ids[r.id]) && server.lock == Free;
    hide BirthdayToTime, Serve, Usable, AllSpace, IsRealDate, ValidatePet, Trim, IsTrimmed;
    BlankIffAllSpace(r.spec.name);
    ValidationIsExact(Desired(r.spec, r.id), true);
    var p := ValidatePet(Desired(r.spec, r.id), true).pet;
    DoneIffAccepted(server, PetStore.UpdatePets([p]));
  }

  // ---- Stale entries: a nil item that arrives empty, or that ends the stream ----

  /** In any store, with stale entries or without, a pass stores a new pet exactly when it gets
      through and finds nothing. */
  lemma AddsIffNothingFound(server: Server, r: Resource, net: Network, sent: seq<string>)
    requires server.lock == Free && NoEmptyId(server) && Fresh(server, r, net.uuid)
    requires IsRealDate(r.spec.birthday) && Trim(r.spec.name) != ""
    ensures net.uuid in Reconcile(server, r, net, sent).0.store.ids
       <==> Reaches(net) && !Finds(server.store, r, net, sent)
  {
    hide BirthdayToTime, Inv, Finds;
    ValidationIsExact(Desired(r.spec, ""), false);
    BlankIffAllSpace(r.spec.name);
    ValidationIsExact(Desired(r.spec, r.id), true);
    TrimTwice(r.spec.name);
    PopulateOne(server.store, Desired(r.spec, net.uuid).(name := Trim(r.spec.name)));
    PopulateOne(server.store, Desired(r.spec, r.id).(name := Trim(r.spec.name)));
  }

  /** A nil item reaches the controller as an empty one. */
  predicate EmptyItemArrives(s: Store, net: Network, sent: seq<string>) {
    !net.nilEnds && exists k :: 0 <= k < |sent| && k < net.delivers && sent[k] !in s.ids
  }

  /** The first pass for a resource creates its pet exactly when no empty item arrives. An empty
      item reads as a found pet without an id, and the update of that pet is refused before it is
      sent, in this pass and in every later one that an empty item reaches. Where nil items end the
      stream instead, the pet is always created. */
  lemma CreatesIffNoEmptyItem(server: Server, r: Resource, net: Network, sent: seq<string>)
    requires server.lock == Free && NoEmptyId(server) && r.id == "" && Fresh(server, r, net.uuid)
    requires IsRealDate(r.spec.birthday) && Trim(r.spec.name) != ""
    ensures var (after, r2, ok) := Reconcile(server, r, net, sent);
            && (net.uuid in after.store.ids <==> Reaches(net) && !EmptyItemArrives(server.store, net, sent))
            && (EmptyItemArrives(server.store, net, sent) ==> after == server && !ok)
  {
    AddsIffNothingFound(server, r, net, sent);
    hide BirthdayToTime, Create;
    ValidationIsExact(Desired(r.spec, ""), true);
    if k :| 0 <= k < |sent| && k < net.delivers && sent[k] !in server.store.ids {
      if !net.nilEnds {
        assert Arrives(server.store, net, sent, k);
      } else {
        assert !Finds(server.store, r, net, sent);
      }
    }
  }

  /** A resource whose pet is in the store gets another pet exactly when the stream ends before
      the one place of its pet in what the search sends: it breaks, or a nil item sent earlier
      ends it. */
  lemma AddsAnotherIff(server: Server, r: Resource, net: Network, sent: seq<string>) returns (k: nat)
    requires server.lock == Free && Inv(server.store) && NoEmptyId(server) && Fresh(server, r, net.uuid)
    requires IsRealDate(r.spec.birthday) && Trim(r.spec.name) != ""
    requires Sends(server.store, Wanted(r.spec), sent) && SameNameAndKind(server, r)
    ensures k < |sent| && forall j | 0 <= j < |sent| :: sent[j] == r.id <==> j == k
    ensures net.uuid in Reconcile(server, r, net, sent).0.store.ids
       <==> && Reaches(net)
            && (net.delivers <= k || (net.nilEnds && exists j :: 0 <= j < k && sent[j] !in server.store.ids))
  {
    hide BirthdayToTime, Inv;
    AddsIffNothingFound(server, r, net, sent);
    hide Reconcile;
    MatchingIsSelected(server.store, Wanted(r.spec), r.id);
    SentIffSelected(server.store, Wanted(r.spec), sent, r.id);
    k :| 0 <= k < |sent| && sent[k] == r.id;
    SentOnce(server.store, Wanted(r.spec), sent);
    assert Finds(server.store, r, net, sent) <==> Arrives(server.store, net, sent, k);
  }

  lemma SentOnce(s: Store, f: Filter, sent: seq<string>)
    requires Sends(s, f, sent)
    ensures forall j, k | 0 <= j < k < |sent| :: sent[j] != sent[k]
  {
    forall j, k | 0 <= j < k < |sent| ensures sent[j] != sent[k] {
      if sent[j] == sent[k] {
        RepeatCounts(sent, j, k);
      }
    }
  }

  /** A pet that changed name and type and was then deleted leaves such an entry. */
  lemma RenameThenDeleteLeavesStale(p: Pet, q: Pet)
    requires p.id == q.id && p.name != q.name && p.kind != q.kind
    ensures var s := RunSections(EMPTY, [Populating([p]), Populating([q]), Erasing([p.id])]);
            Selected(s, Filter([p.name], [p.kind], Any), p.id) && p.id !in s.ids
  {
    hide BirthdayToTime, PutPet, DropPet;
    var a, b, c := Populating([p]), Populating([q]), Erasing([p.id]);
    TwoPuts(p, q);
    assert [a, b, c][..2] == [a, b];
    var before := PutPet(PutPet(EMPTY, p), q);
    assert Erase(before, [p.id][..0]) == before;
    assert RunSections(EMPTY, [a, b, c]) == DropPet(before, p.id);
    StaleAfterDrop(p, q);
    HitsWhenListed(DropPet(before, p.id).names, [p.name], p.id, p.name);
    HitsWhenListed(DropPet(before, p.id).kinds, [p.kind], p.id, p.kind);
  }

  lemma StaleAfterDrop(p: Pet, q: Pet)
    requires p.id == q.id && p.name != q.name && p.kind != q.kind
    ensures var s := DropPet(PutPet(PutPet(EMPTY, p), q), p.id);
            && p.id !in s.ids
            && p.name in s.names && p.id in s.names[p.name]
            && p.kind in s.kinds && p.id in s.kinds[p.kind]
  {
  }

  /** Deleting drops the finalizer only once the pet is out of the store, and a failed call
      keeps it. */
  lemma DeleteDropsFinalizerLast(server: Server, r: Resource, net: Network)
    requires NoEmptyId(server)
    ensures var (after, r2, ok) := ReconcileGone(server, r, net);
            && (ok ==> r.id !in after.store.ids && PET_FINALIZER !in r2.finalizers)
            && (!ok ==> r2 == r)
            && r2.id == r.id
            && forall id | id in server.store.ids && id != r.id ::
                 id in after.store.ids && after.store.ids[id] == server.store.ids[id]
    ensures server.lock == Free && Reaches(net) && net.replied ==> ReconcileGone(server, r, net).2
  {
    hide BirthdayToTime, Inv, Drop, RemoveFinalizer;
    assert Erase(server.store, [r.id][..0]) == server.store;
    assert Erase(server.store, [r.id]) == DropPet(server.store, r.id);
  }

  // ---- The controller as it runs: a resource object worked on in place ----

  class PetResource {
    const spec: Spec
    var id: string
    var finalizers: seq<string>

    function Value(): Resource
      reads this
    {
      Resource(spec, id, finalizers)
    }

    constructor (spec: Spec)
      ensures Value() == Resource(spec, "", [])
    {
      this.spec := spec;
      id, finalizers := "", [];
    }

    method DropFinalizer()
      modifies this
      ensures Value() == old(Value()).(finalizers := RemoveFinalizer(old(finalizers)))
    {
      var rest: seq<string> := [];
      for i := 0 to |finalizers|
        invariant finalizers == old(finalizers)
        invariant rest + RemoveFinalizer(finalizers[i..]) == RemoveFinalizer(finalizers)
      {
        if finalizers[i] != PET_FINALIZER {
          rest := rest + [finalizers[i]];
        }
      }
      finalizers := rest;
    }
  }

  function IdOf(item: Item): string {
    if item.Found? then item.pet.id else ""
  }

  lemma SentIffSelected(s: Store, f: Filter, sent: seq<string>, id: string)
    requires Sends(s, f, sent)
    ensures id in sent <==> Selected(s, f, id)
  {
  }

  /** findPetInStore: the first item to arrive with the id of the status. `sent` is what the
      search sent. */
  method FindPetInStore(store: Data, r: PetResource, net: Network, order: seq<nat>)
    returns (failed: bool, found: bool, ghost sent: seq<string>)
    requires store.Valid() && Permutes(order)
    ensures failed <==> !net.searches || store.lock == WriterWaiting
    ensures !failed ==> Sends(store.Contents().store, Wanted(r.spec), sent)
    ensures !failed ==> (found <==> Finds(store.Contents().store, r.Value(), net, sent))
  {
    hide BirthdayToTime, Inv, Selected, Sends;
    failed, found, sent := !net.searches, false, [];
    if failed {
      return;
    }
    var end, ids, items := store.SearchPets(Wanted(r.spec), order, Alive);
    failed, sent := end.Waits?, ids;
    if failed {
      return;
    }
    ghost var s := store.Contents().store;
    for i := 0 to |items|
      invariant i <= net.delivers && (net.nilEnds ==> forall j | 0 <= j < i :: sent[j] in s.ids)
      invariant forall j | 0 <= j < i :: ArrivingId(s, sent[j]) != r.id
    {
      if i == net.delivers || (net.nilEnds && items[i].NoPet?) {
        return;
      }
      if sent[i] in s.ids {
        LiveId(s, sent[i]);
      }
      assert Arrives(s, net, sent, i);
      if IdOf(items[i]) == r.id {
        found := true;
        return;
      }
    }
  }

  method CreatePetInStore(store: Data, r: PetResource, net: Network) returns (ok: bool)
    requires store.Valid()
    modifies store, r
    ensures store.Valid()
    ensures (store.Contents(), r.Value(), ok) == Create(old(store.Contents()), old(r.Value()), net)
  {
    hide BirthdayToTime, Inv, Serve, ValidatePet;
    match ValidatePet(Desired(r.spec, ""), false)
    case Invalid(_) => ok := false;
    case Valid(p) =>
      ok := false;
      if net.written {
        var outcome := store.AddPets([p.(id := net.uuid)]);
        ok := outcome == Done && net.replied;
        if ok {
          r.id := net.uuid;
        }
      }
  }

  method UpdatePetInStore(store: Data, r: PetResource, net: Network) returns (ok: bool)
    requires store.Valid()
    modifies store
    ensures store.Valid()
    ensures (store.Contents(), r.Value(), ok) == Update(old(store.Contents()), old(r.Value()), net)
  {
    hide BirthdayToTime, Inv, Serve, ValidatePet;
    match ValidatePet(Desired(r.spec, r.id), true)
    case Invalid(_) => ok := false;
    case Valid(p) =>
      ok := false;
      if net.written {
        var outcome := store.UpdatePets([p]);
        ok := outcome == Done && net.replied;
      }
  }

  method ReconcileNormal(store: Data, r: PetResource, net: Network, order: seq<nat>)
    returns (ok: bool, ghost sent: seq<string>)
    requires store.Valid() && Permutes(order)
    modifies store, r
    ensures store.Valid()
    ensures net.connects && net.searches && old(store.lock) != WriterWaiting ==>
              Sends(old(store.Contents().store), Wanted(r.spec), sent)
    ensures (store.Contents(), r.Value(), ok) == Reconcile(old(store.Contents()), old(r.Value()), net, sent)
  {
    hide BirthdayToTime, Inv, Create, Update, Selected, Finds, Sends;
    sent := [];
    if PET_FINALIZER !in r.finalizers {
      r.finalizers := r.finalizers + [PET_FINALIZER];
    }
    if !net.connects {
      return false, sent;
    }
    var failed, found;
    failed, found, sent := FindPetInStore(store, r, net, order);
    FindsIgnoresFinalizers(store.Contents().store, old(r.Value()), AddFinalizer(old(r.finalizers)), net, sent);
    if failed {
      ok := false;
    } else if found {
      ok := UpdatePetInStore(store, r, net);
    } else {
      ok := CreatePetInStore(store, r, net);
    }
  }

  lemma FindsIgnoresFinalizers(s: Store, r: Resource, finalizers: seq<string>, net: Network, sent: seq<string>)
    ensures Finds(s, r.(finalizers := finalizers), net, sent) <==> Finds(s, r, net, sent)
  {
  }

  method ReconcileDelete(store: Data, r: PetResource, net: Network) returns (ok: bool)
    requires store.Valid()
    modifies store, r
    ensures store.Valid()
    ensures (store.Contents(), r.Value(), ok) == ReconcileGone(old(store.Contents()), old(r.Value()), net)
  {
    hide BirthdayToTime, Inv;
    if !net.connects {
      return false;
    }
    if r.id != "" {
      if !net.written {
        return false;
      }
      var outcome := store.DeletePets([r.id]);
      if outcome != Done || !net.replied {
        return false;
      }
    }
    r.DropFinalizer();
    ok := true;
  }
}
