/** The birthday tree: buckets of pets kept in the order of the store's own comparators.
    The balancing of the library tree is not modelled, only its ordered-set contract. */
module BirthdayTree {
  import opened Calendar
  import opened PetIndex

  /** The day of any pet of the bucket. */
  ghost function BucketDay(b: Bucket): int
    requires b != map[]
  {
    assert b.Keys != {};
    var id :| id in b;
    DayOf(b[id])
  }

  ghost predicate OneDay(b: Bucket) {
    b != map[] && forall id | id in b :: DayOf(b[id]) == BucketDay(b)
  }

  ghost function Days(tree: seq<Bucket>): seq<int>
    requires forall i | 0 <= i < |tree| :: OneDay(tree[i])
  {
    seq(|tree|, i requires 0 <= i < |tree| => (assert OneDay(tree[i]); BucketDay(tree[i])))
  }

  ghost predicate Increasing(days: seq<int>) {
    forall i, j | 0 <= i < j < |days| :: days[i] < days[j]
  }

  /** Buckets are non-empty, hold one date each and are strictly ordered by it. */
  ghost predicate Ordered(tree: seq<Bucket>) {
    (forall i | 0 <= i < |tree| :: OneDay(tree[i])) && Increasing(Days(tree))
  }

  ghost function Zip(days: seq<int>, buckets: seq<Bucket>): map<int, Bucket>
    requires |days| == |buckets|
  {
    if days == [] then map[] else Zip(days[1..], buckets[1..])[days[0] := buckets[0]]
  }

  /** The tree as an index by day. */
  ghost function ByDay(tree: seq<Bucket>): map<int, Bucket>
    requires Ordered(tree)
  {
    Zip(Days(tree), tree)
  }

  function Sign(n: int): int {
    if n < 0 then -1 else if n == 0 then 0 else 1
  }

  /** birthdays.Compare. Either range loop may stop at any pet; on an empty bucket the
      source dereferences nil. */
  method CompareBuckets(a: Bucket, b: Bucket) returns (c: int)
    requires a != map[] && b != map[]
    ensures OneDay(a) && OneDay(b) ==> c == Sign(BucketDay(a) - BucketDay(b))
  {
    assert a.Keys != {} && b.Keys != {};
    var ap :| ap in a;
    var bp :| bp in b;
    c := Sign(SortTime(a[ap].birthday) - SortTime(b[bp].birthday));
  }

  /** birthdayGet.Compare against a stored bucket. */
  method CompareGet(birthday: Date, b: Bucket) returns (c: int)
    requires b != map[]
    ensures OneDay(b) ==> c == Sign(SortTime(birthday) - BucketDay(b))
  {
    assert b.Keys != {};
    var bp :| bp in b;
    c := Sign(SortTime(birthday) - SortTime(b[bp].birthday));
  }

  lemma {:induction false} ZipDomain(days: seq<int>, buckets: seq<Bucket>, d: int)
    requires |days| == |buckets|
    ensures d in Zip(days, buckets) <==> d in days
    ensures Increasing(days) ==> forall i | 0 <= i < |days| && days[i] == d :: Zip(days, buckets)[d] == buckets[i]
  {
    if days != [] {
      ZipDomain(days[1..], buckets[1..], d);
    }
  }

  lemma {:induction false} ZipInsert(days: seq<int>, buckets: seq<Bucket>, at: nat, d: int, b: Bucket)
    requires |days| == |buckets| && at <= |days| && d !in days
    ensures Zip(days[..at] + [d] + days[at..], buckets[..at] + [b] + buckets[at..]) == Zip(days, buckets)[d := b]
  {
    var ds, bs := days[..at] + [d] + days[at..], buckets[..at] + [b] + buckets[at..];
    if at == 0 {
      assert ds[1..] == days && bs[1..] == buckets;
    } else {
      assert ds[1..] == days[1..][..at - 1] + [d] + days[1..][at - 1..];
      assert bs[1..] == buckets[1..][..at - 1] + [b] + buckets[1..][at - 1..];
      ZipInsert(days[1..], buckets[1..], at - 1, d, b);
    }
  }

  lemma {:induction false} ZipReplace(days: seq<int>, buckets: seq<Bucket>, at: nat, b: Bucket)
    requires |days| == |buckets| && Increasing(days) && at < |days|
    ensures Zip(days, buckets[at := b]) == Zip(days, buckets)[days[at] := b]
  {
    if at > 0 {
      assert buckets[at := b][1..] == buckets[1..][at - 1 := b];
      ZipReplace(days[1..], buckets[1..], at - 1, b);
    }
  }

  lemma {:induction false} ZipDelete(days: seq<int>, buckets: seq<Bucket>, at: nat)
    requires |days| == |buckets| && Increasing(days) && at < |days|
    ensures Zip(days[..at] + days[at + 1..], buckets[..at] + buckets[at + 1..]) == Zip(days, buckets) - {days[at]}
  {
    var ds, bs := days[..at] + days[at + 1..], buckets[..at] + buckets[at + 1..];
    if at == 0 {
      assert ds == days[1..] && bs == buckets[1..];
      ZipDomain(days[1..], buckets[1..], days[0]);
    } else {
      assert ds[1..] == days[1..][..at - 1] + days[1..][at..];
      assert bs[1..] == buckets[1..][..at - 1] + buckets[1..][at..];
      ZipDelete(days[1..], buckets[1..], at - 1);
    }
  }

  /** The strict order and the day index in terms of the buckets themselves. */
  lemma TreeFacts(tree: seq<Bucket>)
    requires Ordered(tree)
    ensures forall i, j | 0 <= i < j < |tree| :: BucketDay(tree[i]) < BucketDay(tree[j])
    ensures forall i | 0 <= i < |tree| ::
              BucketDay(tree[i]) in ByDay(tree) && ByDay(tree)[BucketDay(tree[i])] == tree[i]
    ensures forall d | d in ByDay(tree) :: exists i :: 0 <= i < |tree| && BucketDay(tree[i]) == d
  {
    hide BirthdayToTime;
    var days := Days(tree);
    assert forall i | 0 <= i < |tree| :: days[i] == BucketDay(tree[i]);
    forall i | 0 <= i < |tree|
      ensures BucketDay(tree[i]) in ByDay(tree) && ByDay(tree)[BucketDay(tree[i])] == tree[i]
    {
      ZipDomain(days, tree, days[i]);
    }
    forall d | d in ByDay(tree) ensures exists i :: 0 <= i < |tree| && BucketDay(tree[i]) == d {
      ZipDomain(days, tree, d);
      var i :| 0 <= i < |days| && days[i] == d;
    }
  }

  /** Position of the bucket of a birthday, or the place where one belongs. */
  method Find(tree: seq<Bucket>, birthday: Date) returns (at: nat, found: bool)
    requires Ordered(tree)
    ensures at <= |tree|
    ensures forall i | 0 <= i < at :: BucketDay(tree[i]) < SortTime(birthday)
    ensures forall i | at <= i < |tree| :: SortTime(birthday) <= BucketDay(tree[i])
    ensures found <==> SortTime(birthday) in ByDay(tree)
    ensures found ==> at < |tree| && BucketDay(tree[at]) == SortTime(birthday)
  {
    hide BirthdayToTime;
    TreeFacts(tree);
    at := 0;
    while at < |tree|
      invariant at <= |tree|
      invariant forall i | 0 <= i < at :: BucketDay(tree[i]) < SortTime(birthday)
    {
      var c := CompareGet(birthday, tree[at]);
      if c <= 0 {
        return at, c == 0;
      }
      at := at + 1;
    }
    return at, false;
  }

  lemma IncreasingInsert(days: seq<int>, at: nat, d: int)
    requires Increasing(days) && at <= |days|
    requires forall i | 0 <= i < at :: days[i] < d
    requires forall i | at <= i < |days| :: d < days[i]
    ensures d !in days && Increasing(days[..at] + [d] + days[at..])
  {
  }

  lemma DaysInsert(tree: seq<Bucket>, at: nat, b: Bucket)
    requires (forall i | 0 <= i < |tree| :: OneDay(tree[i])) && at <= |tree| && OneDay(b)
    ensures var after := tree[..at] + [b] + tree[at..];
            && (forall i | 0 <= i < |after| :: OneDay(after[i]))
            && Days(after) == Days(tree)[..at] + [BucketDay(b)] + Days(tree)[at..]
  {
  }

  /** Insert a bucket whose day is not in the tree. */
  lemma InsertOrdered(tree: seq<Bucket>, at: nat, b: Bucket)
    requires Ordered(tree) && at <= |tree| && OneDay(b)
    requires forall i | 0 <= i < at :: BucketDay(tree[i]) < BucketDay(b)
    requires forall i | at <= i < |tree| :: BucketDay(b) < BucketDay(tree[i])
    ensures Ordered(tree[..at] + [b] + tree[at..])
    ensures ByDay(tree[..at] + [b] + tree[at..]) == ByDay(tree)[BucketDay(b) := b]
  {
    assert forall i | 0 <= i < |tree| :: Days(tree)[i] == BucketDay(tree[i]);
    IncreasingInsert(Days(tree), at, BucketDay(b));
    DaysInsert(tree, at, b);
    hide Increasing, OneDay, BucketDay, Days, Zip;
    ZipInsert(Days(tree), tree, at, BucketDay(b), b);
  }

  lemma ReplaceOrdered(tree: seq<Bucket>, at: nat, b: Bucket)
    requires Ordered(tree) && at < |tree| && OneDay(b) && BucketDay(b) == BucketDay(tree[at])
    ensures Ordered(tree[at := b])
    ensures ByDay(tree[at := b]) == ByDay(tree)[BucketDay(b) := b]
  {
    hide BirthdayToTime;
    ZipReplace(Days(tree), tree, at, b);
    assert Days(tree[at := b]) == Days(tree);
  }

  lemma IncreasingDelete(days: seq<int>, at: nat)
    requires Increasing(days) && at < |days|
    ensures Increasing(days[..at] + days[at + 1..])
  {
  }

  lemma DaysDelete(tree: seq<Bucket>, at: nat)
    requires (forall i | 0 <= i < |tree| :: OneDay(tree[i])) && at < |tree|
    ensures var after := tree[..at] + tree[at + 1..];
            && (forall i | 0 <= i < |after| :: OneDay(after[i]))
            && Days(after) == Days(tree)[..at] + Days(tree)[at + 1..]
  {
  }

  lemma DeleteOrdered(tree: seq<Bucket>, at: nat)
    requires Ordered(tree) && at < |tree|
    ensures Ordered(tree[..at] + tree[at + 1..])
    ensures ByDay(tree[..at] + tree[at + 1..]) == ByDay(tree) - {BucketDay(tree[at])}
  {
    assert Days(tree)[at] == BucketDay(tree[at]);
    DaysDelete(tree, at);
    IncreasingDelete(Days(tree), at);
    hide OneDay, BucketDay, Days, Increasing, Zip;
    ZipDelete(Days(tree), tree, at);
  }

  lemma FilingKeepsOneDay(b: Bucket, p: Pet)
    requires b == map[] || (OneDay(b) && BucketDay(b) == DayOf(p))
    ensures OneDay(b[p.id := p]) && BucketDay(b[p.id := p]) == DayOf(p)
  {
    hide BirthdayToTime;
    var after := b[p.id := p];
    assert p.id in after;
    forall id | id in after ensures DayOf(after[id]) == DayOf(p) {
      if id != p.id {
        assert id in b;
      }
    }
  }

  lemma LeavingKeepsOneDay(b: Bucket, id: string)
    requires OneDay(b) && |b| != 1
    ensures OneDay(b - {id}) && BucketDay(b - {id}) == BucketDay(b)
  {
    hide BirthdayToTime;
    var after := b - {id};
    assert after.Keys == b.Keys - {id};
    assert b.Keys != {};
    assert |after.Keys| > 0;
    assert forall other | other in after :: DayOf(after[other]) == BucketDay(b);
  }

  /** Insert: the place is found with the comparator of buckets, and a bucket that compares equal
      is replaced. */
  method Insert(tree: seq<Bucket>, b: Bucket) returns (after: seq<Bucket>)
    requires Ordered(tree) && OneDay(b)
    ensures Ordered(after) && ByDay(after) == ByDay(tree)[BucketDay(b) := b]
  {
    hide BirthdayToTime;
    TreeFacts(tree);
    var at := 0;
    while at < |tree|
      invariant at <= |tree|
      invariant forall i | 0 <= i < at :: BucketDay(tree[i]) < BucketDay(b)
    {
      var c := CompareBuckets(b, tree[at]);
      if c == 0 {
        ReplaceOrdered(tree, at, b);
        return tree[at := b];
      }
      if c < 0 {
        break;
      }
      at := at + 1;
    }
    InsertOrdered(tree, at, b);
    after := tree[..at] + [b] + tree[at..];
  }

  /** The birthday half of populate: Get, then Insert or file in the bucket found. */
  method Place(tree: seq<Bucket>, p: Pet) returns (after: seq<Bucket>)
    requires Ordered(tree)
    ensures Ordered(after)
    ensures ByDay(after) == Put(ByDay(tree), DayOf(p), p)
  {
    hide BirthdayToTime;
    var at, found := Find(tree, p.birthday);
    TreeFacts(tree);
    if found {
      FilingKeepsOneDay(tree[at], p);
      ReplaceOrdered(tree, at, tree[at][p.id := p]);
      assert ByDay(tree)[DayOf(p)] == tree[at];
      after := tree[at := tree[at][p.id := p]];
    } else {
      FilingKeepsOneDay(map[], p);
      after := Insert(tree, map[p.id := p]);
    }
  }

  /** The birthday half of DeletePets: a bucket of one pet is deleted from the tree before
      the pet leaves it, so no comparator meets an empty bucket. */
  method Unplace(tree: seq<Bucket>, p: Pet) returns (after: seq<Bucket>)
    requires Ordered(tree)
    ensures Ordered(after)
    ensures ByDay(after) == Drop(ByDay(tree), DayOf(p), p.id)
  {
    hide BirthdayToTime;
    var at, found := Find(tree, p.birthday);
    TreeFacts(tree);
    if !found {
      return tree;
    }
    assert ByDay(tree)[DayOf(p)] == tree[at];
    if |tree[at]| == 1 {
      DeleteOrdered(tree, at);
      after := tree[..at] + tree[at + 1..];
    } else {
      LeavingKeepsOneDay(tree[at], p.id);
      ReplaceOrdered(tree, at, tree[at] - {p.id});
      after := tree[at := tree[at] - {p.id}];
    }
  }

  /** On buckets of accepted birthdays both comparators order by (year, month, day). */
  lemma ComparatorsAreDateOrder(a: Bucket, b: Bucket, ap: string, bp: string)
    requires OneDay(a) && OneDay(b) && ap in a && bp in b
    requires IsRealDate(a[ap].birthday) && IsRealDate(b[bp].birthday)
    ensures Sign(BucketDay(a) - BucketDay(b)) == -1 <==> Earlier(a[ap].birthday, b[bp].birthday)
    ensures Sign(BucketDay(a) - BucketDay(b)) == 0 <==> a[ap].birthday == b[bp].birthday
    ensures Sign(BucketDay(a) - BucketDay(b)) == 1 <==> Earlier(b[bp].birthday, a[ap].birthday)
    ensures Sign(SortTime(a[ap].birthday) - BucketDay(b)) == Sign(BucketDay(a) - BucketDay(b))
  {
    AcceptsExactlyRealDates(a[ap].birthday);
    AcceptsExactlyRealDates(b[bp].birthday);
    TimeOrderIsDateOrder(a[ap].birthday, b[bp].birthday);
    TimeOrderIsDateOrder(b[bp].birthday, a[ap].birthday);
  }
}
