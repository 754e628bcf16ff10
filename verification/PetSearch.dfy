/** Searching the store: an id is sent when the index lists name it as often as there are
    criteria. This file says when that count is the same as filtering the live pets. */
module PetSearch {
  import opened Calendar
  import opened Counts
  import opened PetIndex
  import opened PetStore
  import opened PetValidation
  import opened Text

  datatype Range = Any | Between(start: Date, end: Date)

  datatype Filter = Filter(names: seq<string>, kinds: seq<PetType>, range: Range)

  function Criteria(f: Filter): nat {
    One(f.names != []) + One(f.kinds != []) + One(f.range.Between?)
  }

  /** The library's range walk panics on an inverted range. */
  predicate InOrder(r: Range) {
    r.Between? ==> SortTime(r.start) <= SortTime(r.end)
  }

  /** The plain meaning of a filter; the range is half open. */
  predicate InRange(r: Range, p: Pet) {
    r.Between? ==> SortTime(r.start) <= DayOf(p) < SortTime(r.end)
  }

  predicate Matches(f: Filter, p: Pet) {
    && (f.names != [] ==> p.name in f.names)
    && (f.kinds != [] ==> p.kind in f.kinds)
    && InRange(f.range, p)
  }

  /** How often byNames or byTypes lists an id: once for each filter value whose bucket holds it. */
  function Hits<K(==)>(index: map<K, Bucket>, keys: seq<K>, id: string): nat {
    if keys == [] then 0
    else
      var last := keys[|keys| - 1];
      Hits(index, keys[..|keys| - 1], id) + (if last in index && id in index[last] then 1 else 0)
  }

  function DaysListing(days: map<int, Bucket>, r: Range, id: string): set<int> {
    if r.Any? then {}
    else set d | d in days && SortTime(r.start) <= d < SortTime(r.end) && id in days[d]
  }

  /** How often the three lists together name an id. */
  function Score(s: Store, f: Filter, id: string): nat {
    Hits(s.names, f.names, id) + Hits(s.kinds, f.kinds, id) + |DaysListing(s.days, f.range, id)|
  }

  predicate Selected(s: Store, f: Filter, id: string) {
    if Criteria(f) == 0 then id in s.ids else Score(s, f, id) >= Criteria(f)
  }

  /** The ids a search may send, in any order: each selected one once, and no other. */
  ghost predicate Sends(s: Store, f: Filter, sent: seq<string>) {
    forall id :: multiset(sent)[id] == if Selected(s, f, id) then 1 else 0
  }

  /** On dates that the server accepts, the panic is for a range that ends before it starts; one
      that ends where it starts is just empty. */
  lemma PanicsIffInverted(start: Date, end: Date)
    requires IsRealDate(start) && IsRealDate(end)
    ensures !InOrder(Between(start, end)) <==> Earlier(end, start)
  {
    hide BirthdayToTime;
    AcceptsExactlyRealDates(start);
    AcceptsExactlyRealDates(end);
    TimeOrderIsDateOrder(start, end);
    TimeOrderIsDateOrder(end, start);
  }

  // ---- No lost results: true in every store that a run can reach ----

  lemma {:induction false} HitsWhenListed<K(!new)>(index: map<K, Bucket>, keys: seq<K>, id: string, key: K)
    requires key in keys && key in index && id in index[key]
    ensures Hits(index, keys, id) >= 1
  {
    if keys[|keys| - 1] != key {
      var i :| 0 <= i < |keys| && keys[i] == key;
      assert keys[..|keys| - 1][i] == key;
      HitsWhenListed(index, keys[..|keys| - 1], id, key);
    }
  }

  lemma DayListed(days: map<int, Bucket>, r: Range, id: string, d: int)
    requires r.Between? && d in days && SortTime(r.start) <= d < SortTime(r.end) && id in days[d]
    ensures |DaysListing(days, r, id)| >= 1
  {
    hide BirthdayToTime;
    var listing := DaysListing(days, r, id);
    assert listing == {d} + (listing - {d});
  }

  /** A live pet that matches is selected, whatever the stale entries and however often the
      filter repeats a value. */
  lemma MatchingIsSelected(s: Store, f: Filter, id: string)
    requires Inv(s) && id in s.ids && Matches(f, s.ids[id])
    ensures Selected(s, f, id)
  {
    hide BirthdayToTime;
    var p := s.ids[id];
    assert NameOf(p) in s.names && id in s.names[NameOf(p)];
    assert KindOf(p) in s.kinds && id in s.kinds[KindOf(p)];
    assert DayOf(p) in s.days && id in s.days[DayOf(p)];
    if f.names != [] {
      HitsWhenListed(s.names, f.names, id, NameOf(p));
    }
    if f.kinds != [] {
      HitsWhenListed(s.kinds, f.kinds, id, KindOf(p));
    }
    if f.range.Between? {
      DayListed(s.days, f.range, id, DayOf(p));
    }
  }

  /** In every run every live matching pet is sent exactly once, and no id is sent twice. */
  lemma NoLostResults(sections: seq<Section>, f: Filter, sent: seq<string>)
    requires Sends(RunSections(EMPTY, sections), f, sent)
    ensures var s := RunSections(EMPTY, sections);
            forall id | id in s.ids && Matches(f, s.ids[id]) :: multiset(sent)[id] == 1
    ensures forall id :: multiset(sent)[id] <= 1
  {
    var s := RunSections(EMPTY, sections);
    EveryRunInv(sections);
    forall id | id in s.ids && Matches(f, s.ids[id]) ensures multiset(sent)[id] == 1 {
      MatchingIsSelected(s, f, id);
    }
  }

  // ---- Exactness ----

  predicate NoRepeats(f: Filter) {
    && (forall i, j | 0 <= i < j < |f.names| :: f.names[i] != f.names[j])
    && (forall i, j | 0 <= i < j < |f.kinds| :: f.kinds[i] != f.kinds[j])
  }

  /** The search of this store sends exactly the live pets that match. */
  ghost predicate Exact(s: Store, f: Filter) {
    forall id :: Selected(s, f, id) <==> (id in s.ids && Matches(f, s.ids[id]))
  }

  /** In agreeing indexes an id is listed once for each time the filter names its own key. */
  lemma {:induction false} HitsAreOccurrences<K(!new)>(
      index: map<K, Bucket>, live: Bucket, key: Pet -> K, keys: seq<K>, id: string)
    requires Agrees(index, live, key)
    ensures Hits(index, keys, id) == if id in live then multiset(keys)[key(live[id])] else 0
  {
    if keys != [] {
      var front, last := keys[..|keys| - 1], keys[|keys| - 1];
      HitsAreOccurrences(index, live, key, front, id);
      assert keys == front + [last];
      if id in live && key(live[id]) == last {
        assert last in index && id in index[last];
      }
    }
  }

  lemma DaysListedOnce(days: map<int, Bucket>, live: Bucket, r: Range, id: string)
    requires Agrees(days, live, DayOf)
    ensures |DaysListing(days, r, id)| == if r.Between? && id in live && InRange(r, live[id]) then 1 else 0
  {
    hide BirthdayToTime, SortTime;
    if r.Between? && id in live && InRange(r, live[id]) {
      assert DaysListing(days, r, id) == {DayOf(live[id])};
    } else {
      assert DaysListing(days, r, id) == {};
    }
  }

  lemma {:induction false} OccursOnce<K(!new)>(keys: seq<K>, key: K)
    requires forall i, j | 0 <= i < j < |keys| :: keys[i] != keys[j]
    ensures multiset(keys)[key] <= 1
  {
    if keys != [] {
      assert keys == keys[..|keys| - 1] + [keys[|keys| - 1]];
      OccursOnce(keys[..|keys| - 1], key);
    }
  }

  lemma ScoreWhenAgreeing(s: Store, f: Filter, id: string)
    requires IndexesAgree(s)
    ensures Score(s, f, id) ==
      if id in s.ids
      then multiset(f.names)[s.ids[id].name] + multiset(f.kinds)[s.ids[id].kind]
           + (if f.range.Between? && InRange(f.range, s.ids[id]) then 1 else 0)
      else 0
  {
    hide BirthdayToTime;
    HitsAreOccurrences(s.names, s.ids, NameOf, f.names, id);
    HitsAreOccurrences(s.kinds, s.ids, KindOf, f.kinds, id);
    DaysListedOnce(s.days, s.ids, f.range, id);
  }

  lemma Occurs<K(!new)>(keys: seq<K>, key: K)
    ensures multiset(keys)[key] >= 1 <==> key in keys
    ensures keys == [] ==> multiset(keys)[key] == 0
  {
  }

  lemma CountDecides(s: Store, f: Filter, id: string)
    requires IndexesAgree(s) && (NoRepeats(f) || Criteria(f) <= 1)
    ensures Selected(s, f, id) <==> (id in s.ids && Matches(f, s.ids[id]))
  {
    ScoreWhenAgreeing(s, f, id);
    hide BirthdayToTime, IndexesAgree, Score, InRange, Agrees, Inv;
    if id in s.ids {
      var p := s.ids[id];
      Occurs(f.names, p.name);
      Occurs(f.kinds, p.kind);
      if NoRepeats(f) {
        OccursOnce(f.names, p.name);
        OccursOnce(f.kinds, p.kind);
      }
      hide NoRepeats;
      EnoughIffAll(multiset(f.names)[p.name], multiset(f.kinds)[p.kind], One(f.range.Between? && InRange(f.range, p)),
                   f.names != [], f.kinds != [], f.range.Between?);
    }
  }

  /** Criteria that are not asked for count nothing, and the others at most once unless there is
      only one. */
  lemma EnoughIffAll(names: nat, kinds: nat, days: nat, byName: bool, byKind: bool, byDay: bool)
    requires (!byName ==> names == 0) && (!byKind ==> kinds == 0) && (!byDay ==> days == 0) && days <= 1
    requires (names <= 1 && kinds <= 1) || One(byName) + One(byKind) + One(byDay) <= 1
    ensures One(byName) + One(byKind) + One(byDay) > 0 ==>
              (names + kinds + days >= One(byName) + One(byKind) + One(byDay) <==>
                (byName ==> names >= 1) && (byKind ==> kinds >= 1) && (byDay ==> days == 1))
  {
  }

  /** With indexes in agreement and no value repeated in the filter, or with one criterion
      only, the count is the filter. */
  lemma SearchIsFilter(s: Store, f: Filter)
    requires IndexesAgree(s) && (NoRepeats(f) || Criteria(f) <= 1)
    ensures Exact(s, f)
  {
    forall id ensures Selected(s, f, id) <==> (id in s.ids && Matches(f, s.ids[id])) {
      CountDecides(s, f, id);
    }
  }

  /** The same for the sequence that a search sends, in a run that never changes a key. */
  lemma SearchRefinesFilter(sections: seq<Section>, f: Filter, sent: seq<string>)
    requires RunKeepsKeys(EMPTY, sections) && NoRepeats(f)
    requires Sends(RunSections(EMPTY, sections), f, sent)
    ensures var s := RunSections(EMPTY, sections);
            forall id :: multiset(sent)[id] == if id in s.ids && Matches(f, s.ids[id]) then 1 else 0
  {
    KeyKeepingRunsAgree(sections);
    SearchIsFilter(RunSections(EMPTY, sections), f);
  }

  // ---- Exactly which stores search exactly ----

  lemma DayAfter(d: int) returns (date: Date)
    ensures SortTime(date) > d
  {
    hide BirthdayToTime, YearOf, YearDays;
    date := Date(YearOf(d) + 1, 1, 1);
    YearOfBounds(d);
    AcceptsExactlyRealDates(date);
  }

  /** Exact for every filter that repeats nothing. */
  ghost predicate AlwaysExact(s: Store) {
    forall f | NoRepeats(f) && InOrder(f.range) :: Exact(s, f)
  }

  lemma StaleNameShows(s: Store, name: string, id: string)
    requires Inv(s) && AlwaysExact(s) && name in s.names && id in s.names[name]
    ensures id in s.ids && s.ids[id].name == name
  {
    hide BirthdayToTime;
    var f := Filter([name], [], Any);
    assert NoRepeats(f) && InOrder(f.range);
    HitsWhenListed(s.names, [name], id, name);
    assert Selected(s, f, id);
  }

  lemma StaleKindShows(s: Store, kind: PetType, id: string)
    requires Inv(s) && AlwaysExact(s) && kind in s.kinds && id in s.kinds[kind]
    ensures id in s.ids && s.ids[id].kind == kind
  {
    hide BirthdayToTime;
    var f := Filter([], [kind], Any);
    assert NoRepeats(f) && InOrder(f.range);
    HitsWhenListed(s.kinds, [kind], id, kind);
    assert Selected(s, f, id);
  }

  lemma StaleDayShows(s: Store, d: int, id: string)
    requires Inv(s) && AlwaysExact(s) && d in s.days && id in s.days[d]
    ensures id in s.ids && DayOf(s.ids[id]) == d
  {
    hide BirthdayToTime, Covers, DaysListing;
    var start := s.days[d][id].birthday;
    FiledUnderOwnKey(s.days, s.ids, DayOf, d, id);
    var end := DayAfter(d);
    if id in s.ids && DayOf(s.ids[id]) > d {
      end := s.ids[id].birthday;
    }
    var f := Filter([], [], Between(start, end));
    DayListed(s.days, f.range, id, d);
    assert Selected(s, f, id);
    assert NoRepeats(f) && InOrder(f.range);
  }

  lemma ExactNames(s: Store)
    requires Inv(s) && AlwaysExact(s)
    ensures Agrees(s.names, s.ids, NameOf)
  {
    hide BirthdayToTime, AlwaysExact, Covers;
    forall name, id | name in s.names && id in s.names[name]
      ensures id in s.ids && NameOf(s.ids[id]) == name
    {
      StaleNameShows(s, name, id);
    }
  }

  lemma ExactKinds(s: Store)
    requires Inv(s) && AlwaysExact(s)
    ensures Agrees(s.kinds, s.ids, KindOf)
  {
    hide BirthdayToTime, AlwaysExact, Covers;
    forall kind, id | kind in s.kinds && id in s.kinds[kind]
      ensures id in s.ids && KindOf(s.ids[id]) == kind
    {
      StaleKindShows(s, kind, id);
    }
  }

  lemma ExactDays(s: Store)
    requires Inv(s) && AlwaysExact(s)
    ensures Agrees(s.days, s.ids, DayOf)
  {
    hide BirthdayToTime, AlwaysExact, Covers;
    forall day, id | day in s.days && id in s.days[day]
      ensures id in s.ids && DayOf(s.ids[id]) == day
    {
      StaleDayShows(s, day, id);
    }
  }

  /** A reachable store searches exactly for every filter without repeats exactly when its
      indexes agree. */
  lemma ExactIffIndexesAgree(s: Store)
    requires Inv(s)
    ensures AlwaysExact(s) <==> IndexesAgree(s)
  {
    hide BirthdayToTime, Covers, Agrees, Exact, NoRepeats, InOrder;
    if IndexesAgree(s) {
      forall f | NoRepeats(f) && InOrder(f.range) ensures Exact(s, f) {
        SearchIsFilter(s, f);
      }
    }
    if AlwaysExact(s) {
      ExactNames(s);
      ExactKinds(s);
      ExactDays(s);
    }
  }

  lemma TwoPuts(p: Pet, q: Pet)
    ensures RunSections(EMPTY, [Populating([p]), Populating([q])]) == PutPet(PutPet(EMPTY, p), q)
  {
    hide PutPet;
    var first, second := Populating([p]), Populating([q]);
    assert [first, second][..1] == [first];
    PopulateOne(EMPTY, p);
    PopulateOne(PutPet(EMPTY, p), q);
    assert RunSections(EMPTY, []) == EMPTY;
    assert RunSections(EMPTY, [first]) == PutPet(EMPTY, p);
  }

  /** A rename leaves the old entry behind: a search by the old name sends the renamed pet. */
  lemma RenamedPetIsStillFound(p: Pet, newName: string)
    requires p.name != newName
    ensures var s := RunSections(EMPTY, [Populating([p]), Populating([p.(name := newName)])]);
            && Selected(s, Filter([p.name], [], Any), p.id)
            && p.id in s.ids && !Matches(Filter([p.name], [], Any), s.ids[p.id])
  {
    hide BirthdayToTime, RunSections;
    var q := p.(name := newName);
    TwoPuts(p, q);
    HitsWhenListed(PutPet(PutPet(EMPTY, p), q).names, [p.name], p.id, p.name);
  }

  // ---- Exactly which filters search every agreeing store exactly ----

  /** What a store behind the server holds: validated pets with drawn ids. */
  ghost predicate Served(s: Store) {
    forall id | id in s.ids :: id != "" && WellFormed(s.ids[id])
  }

  /** The server accepts the types and the range, and the names are such as pets can have. */
  ghost predicate Servable(f: Filter) {
    && (forall name | name in f.names :: name != "" && Trim(name) == name)
    && (forall kind | kind in f.kinds :: kind != PT_UNKNOWN)
    && (f.range.Between? ==> IsRealDate(f.range.start) && IsRealDate(f.range.end))
  }

  lemma FreshKind(kinds: seq<PetType>) returns (kind: PetType)
    ensures kind !in kinds && kind != PT_UNKNOWN
  {
    kind := 1;
    for i := 0 to |kinds|
      invariant kind > 0 && forall j | 0 <= j < i :: kinds[j] < kind
    {
      if kinds[i] >= kind {
        kind := kinds[i] + 1;
      }
    }
  }

  function Repeated(n: nat): (s: string)
    ensures |s| == n && forall i | 0 <= i < n :: s[i] == 'a'
  {
    seq(n, _ => 'a')
  }

  lemma FreshName(names: seq<string>) returns (name: string)
    ensures name !in names && name != "" && Trim(name) == name
  {
    var n := 1;
    for i := 0 to |names|
      invariant n > 0 && forall j | 0 <= j < i :: |names[j]| < n
    {
      if |names[i]| >= n {
        n := |names[i]| + 1;
      }
    }
    name := Repeated(n);
  }

  lemma RepeatCounts<K(!new)>(keys: seq<K>, i: nat, j: nat)
    requires i < j < |keys| && keys[i] == keys[j]
    ensures multiset(keys)[keys[i]] >= 2
  {
    assert keys == keys[..j] + keys[j..];
    assert keys[i] in keys[..j] && keys[j] in keys[j..] by {
      assert keys[..j][i] == keys[i] && keys[j..][0] == keys[j];
    }
  }

  lemma SinglePetStore(p: Pet) returns (s: Store)
    ensures IndexesAgree(s) && s.ids == map[p.id := p]
  {
    hide BirthdayToTime;
    PutPetAgreesIffKeysKept(EMPTY, p);
    s := PutPet(EMPTY, p);
  }

  /** A pet that a filter with a repeated value wrongly selects: it has the repeated value, lies
      at the excluded end of the range, and misses another criterion. */
  ghost predicate Misleads(f: Filter, p: Pet) {
    && !Matches(f, p) && p.id != "" && (Servable(f) ==> WellFormed(p))
    && multiset(f.names)[p.name] + multiset(f.kinds)[p.kind] >= Criteria(f)
  }

  lemma RepeatedNameMisleads(f: Filter, i: nat, j: nat) returns (p: Pet)
    requires Criteria(f) >= 2 && InOrder(f.range) && i < j < |f.names| && f.names[i] == f.names[j]
    ensures Misleads(f, p)
  {
    hide BirthdayToTime;
    RepeatCounts(f.names, i, j);
    assert f.names[i] in f.names;
    var kind := FreshKind(f.kinds);
    if f.range.Between? && f.kinds != [] {
      kind := f.kinds[0];
      Occurs(f.kinds, kind);
    }
    p := Pet("id", f.names[i], kind, if f.range.Between? then f.range.end else Date(1, 1, 1));
  }

  lemma RepeatedKindMisleads(f: Filter, i: nat, j: nat) returns (p: Pet)
    requires Criteria(f) >= 2 && InOrder(f.range) && i < j < |f.kinds| && f.kinds[i] == f.kinds[j]
    ensures Misleads(f, p)
  {
    hide BirthdayToTime;
    RepeatCounts(f.kinds, i, j);
    assert f.kinds[i] in f.kinds;
    var name := FreshName(f.names);
    if f.range.Between? && f.names != [] {
      name := f.names[0];
      Occurs(f.names, name);
    }
    p := Pet("id", name, f.kinds[i], if f.range.Between? then f.range.end else Date(1, 1, 1));
  }

  lemma NotExactOnSome(f: Filter) returns (s: Store)
    requires Criteria(f) >= 2 && !NoRepeats(f) && InOrder(f.range)
    ensures IndexesAgree(s) && (Servable(f) ==> Served(s)) && !Exact(s, f)
  {
    hide BirthdayToTime;
    var p;
    if i, j :| 0 <= i < j < |f.names| && f.names[i] == f.names[j] {
      p := RepeatedNameMisleads(f, i, j);
    } else {
      var i, j :| 0 <= i < j < |f.kinds| && f.kinds[i] == f.kinds[j];
      p := RepeatedKindMisleads(f, i, j);
    }
    s := SinglePetStore(p);
    ScoreWhenAgreeing(s, f, p.id);
    hide IndexesAgree, Score, NoRepeats;
    assert Selected(s, f, p.id);
  }

  /** A filter is exact on every store with agreeing indexes exactly when it has at most one
      criterion or repeats no value. */
  lemma ExactOnEveryStoreIff(f: Filter)
    requires InOrder(f.range)
    ensures (forall s | IndexesAgree(s) :: Exact(s, f)) <==> (Criteria(f) <= 1 || NoRepeats(f))
  {
    hide BirthdayToTime, IndexesAgree, Exact;
    if Criteria(f) <= 1 || NoRepeats(f) {
      forall s | IndexesAgree(s) ensures Exact(s, f) {
        SearchIsFilter(s, f);
      }
    } else {
      var s := NotExactOnSome(f);
    }
  }

  /** The same for the filters that a client can usefully send and the stores that the server
      can hold. */
  lemma ExactOnServedStoresIff(f: Filter)
    requires InOrder(f.range) && Servable(f)
    ensures (forall s | IndexesAgree(s) && Served(s) :: Exact(s, f)) <==> (Criteria(f) <= 1 || NoRepeats(f))
  {
    hide BirthdayToTime, IndexesAgree, Exact, Served;
    if Criteria(f) <= 1 || NoRepeats(f) {
      ExactOnEveryStoreIff(f);
    } else {
      var s := NotExactOnSome(f);
    }
  }
}
