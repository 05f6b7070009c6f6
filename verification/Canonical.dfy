// The sorted form every bundle is put into before it is checked, hashed or imported.
module Canonical {
  import opened Ordering
  import opened Ids
  import opened Domain
  import opened Database
  import opened Bundles

  // ----- Sorting -----

  /** y holds the elements of x, as often, with none before one that is less. */
  ghost predicate SortOf<T>(less: (T, T) -> bool, x: seq<T>, y: seq<T>) {
    multiset(x) == multiset(y) && Ordered(less, y)
  }

  /** What a comparison must satisfy for sorting: ties are allowed. */
  ghost predicate Comparison<T(!new)>(less: (T, T) -> bool) {
    && (forall a, b :: less(a, b) ==> !less(b, a))
    && forall a, b, c :: !less(b, a) && !less(c, b) ==> !less(c, a)
  }

  ghost predicate Ordered<T>(less: (T, T) -> bool, s: seq<T>) {
    forall i, j :: 0 <= i < j < |s| ==> !less(s[j], s[i])
  }

  lemma OrderedAround<T>(less: (T, T) -> bool, a: seq<T>, x: T, b: seq<T>)
    requires Ordered(less, a + b)
    requires (forall i :: 0 <= i < |a| ==> !less(x, a[i])) && forall i :: 0 <= i < |b| ==> !less(b[i], x)
    ensures Ordered(less, a + [x] + b)
  {
    var r := a + [x] + b;
    forall i, j | 0 <= i < j < |r| ensures !less(r[j], r[i]) {
      var i' := if i <= |a| then i else i - 1;
      var j' := if j <= |a| then j else j - 1;
      assert i != |a| ==> r[i] == (a + b)[i'];
      assert j != |a| ==> r[j] == (a + b)[j'];
    }
  }

  lemma InsertedAt<T(!new)>(less: (T, T) -> bool, s: seq<T>, x: T, k: nat)
    requires Comparison(less) && Ordered(less, s)
    requires k <= |s| && (forall i :: k <= i < |s| ==> less(x, s[i])) && (k > 0 ==> !less(x, s[k - 1]))
    ensures SortOf(less, s + [x], s[..k] + [x] + s[k..])
  {
    assert s == s[..k] + s[k..];
    forall i | 0 <= i < k ensures !less(x, s[i]) {
      assert i < k - 1 ==> !less(s[k - 1], s[i]);
    }
    OrderedAround(less, s[..k], x, s[k..]);
  }

  method InsertSorted<T(==, !new)>(less: (T, T) -> bool, s: seq<T>, x: T) returns (r: seq<T>)
    requires Comparison(less) && Ordered(less, s)
    ensures SortOf(less, s + [x], r)
  {
    var k := |s|;
    while k > 0 && less(x, s[k - 1])
      invariant 0 <= k <= |s|
      invariant forall i :: k <= i < |s| ==> less(x, s[i])
    {
      k := k - 1;
    }
    InsertedAt(less, s, x, k);
    r := s[..k] + [x] + s[k..];
  }

  method Sort<T(==, !new)>(less: (T, T) -> bool, s: seq<T>) returns (r: seq<T>)
    requires Comparison(less)
    ensures SortOf(less, s, r) && |r| == |s|
  {
    r := [];
    for i := 0 to |s|
      invariant SortOf(less, s[..i], r)
    {
      assert s[..i + 1] == s[..i] + [s[i]];
      assert multiset(r + [s[i]]) == multiset(s[..i + 1]);
      r := InsertSorted(less, r, s[i]);
    }
    assert s[..|s|] == s;
    assert |r| == |multiset(r)| == |multiset(s)| == |s|;
  }

  predicate NoRepeats<T(==)>(s: seq<T>) {
    forall i, j :: 0 <= i < j < |s| ==> s[i] != s[j]
  }

  lemma {:induction false} NoRepeatsCounted<T>(s: seq<T>)
    ensures NoRepeats(s) <==> forall x :: multiset(s)[x] <= 1
  {
    if s != [] {
      var front, last := s[..|s| - 1], s[|s| - 1];
      assert s == front + [last];
      NoRepeatsCounted(front);
      if last in front {
        var i :| 0 <= i < |front| && front[i] == last;
        assert s[i] == s[|front|];
        assert multiset(s)[last] > 1;
      } else {
        assert multiset(front)[last] == 0;
        assert forall i, j :: 0 <= i < j < |front| ==> s[i] == front[i] && s[j] == front[j];
        if NoRepeats(front) {
          assert forall x :: multiset(s)[x] == multiset(front)[x] + (if x == last then 1 else 0);
        } else {
          var x :| multiset(front)[x] > 1;
          assert multiset(s)[x] > 1;
        }
      }
    }
  }

  /** Without ties, a sort has one outcome. */
  lemma SortUnique<T(!new)>(less: (T, T) -> bool, x: seq<T>, y: seq<T>, z: seq<T>)
    requires SortOf(less, x, y) && SortOf(less, x, z) && NoRepeats(x)
    requires OrderOn(less, set e | e in x)
    ensures y == z
  {
    NoRepeatsCounted(x);
    NoRepeatsCounted(y);
    NoRepeatsCounted(z);
    var elements := set e | e in x;
    SortLists(less, x, y);
    SortLists(less, x, z);
    ListingUnique(less, y, z, elements);
  }

  lemma SortLists<T(!new)>(less: (T, T) -> bool, x: seq<T>, y: seq<T>)
    requires SortOf(less, x, y) && NoRepeats(y) && OrderOn(less, set e | e in x)
    ensures ListsBy(less, y, set e | e in x)
  {
    forall e ensures e in x <==> e in y {
      assert e in multiset(x) <==> e in multiset(y);
    }
    forall i, j | 0 <= i < j < |y| ensures less(y[i], y[j]) {
      assert y[i] in y && y[j] in y;
    }
  }

  // ----- The orders a bundle is sorted by -----

  predicate RowLess<T>(a: Row<T>, b: Row<T>) {
    Less(a.id, b.id)
  }

  predicate EpisodeLess(a: PortableEpisode, b: PortableEpisode) {
    Less(a.id, b.id)
  }

  predicate MemoryLess(a: PortableMemory, b: PortableMemory) {
    Less(a.id, b.id)
  }

  predicate VersionBefore(a: Row<Version>, b: Row<Version>) {
    a.value.number < b.value.number || (a.value.number == b.value.number && Less(a.id, b.id))
  }

  lemma LessCompares()
    ensures Comparison(Less)
    ensures Comparison(EpisodeLess) && Comparison(MemoryLess) && Comparison(VersionBefore)
  {
    forall a, b | Less(a, b) ensures !Less(b, a) {
      LessOrder(a, b);
    }
    forall a, b, c | !Less(b, a) && !Less(c, b) ensures !Less(c, a) {
      LessOrder(a, b);
      LessOrder(b, c);
      LessOrder(a, c);
      if Less(a, b) && Less(b, c) {
        LessTransitive(a, b, c);
      }
    }
    forall a: Row<Version>, b: Row<Version> | VersionBefore(a, b) ensures !VersionBefore(b, a) {
      assert Less(a.id, b.id) ==> !Less(b.id, a.id);
    }
    forall a: Row<Version>, b: Row<Version>, c: Row<Version> | !VersionBefore(b, a) && !VersionBefore(c, b)
      ensures !VersionBefore(c, a)
    {
      assert !Less(b.id, a.id) && !Less(c.id, b.id) ==> !Less(c.id, a.id);
    }
  }

  lemma RowLessCompares<T(!new)>()
    ensures Comparison<Row<T>>(RowLess)
  {
    LessCompares();
  }

  // ----- The sorted form of a bundle -----

  ghost predicate EpisodeSorted(e: PortableEpisode, f: PortableEpisode) {
    f.id == e.id && f.episode == e.episode && SortOf(RowLess<Outcome>, e.outcomes, f.outcomes)
  }

  ghost predicate EpisodesSorted(x: seq<PortableEpisode>, y: seq<PortableEpisode>) {
    exists mid :: SortOf(EpisodeLess, x, mid) && |mid| == |y| && forall i :: 0 <= i < |y| ==> EpisodeSorted(mid[i], y[i])
  }

  ghost predicate MemorySorted(m: PortableMemory, n: PortableMemory) {
    n.id == m.id && n.memory == m.memory && SortOf(VersionBefore, m.versions, n.versions)
  }

  ghost predicate MemoriesSorted(x: seq<PortableMemory>, y: seq<PortableMemory>) {
    exists mid :: SortOf(MemoryLess, x, mid) && |mid| == |y| && forall i :: 0 <= i < |y| ==> MemorySorted(mid[i], y[i])
  }

  ghost predicate SortedForm(b: Bundle, c: Bundle) {
    && c == b.(privateOwners := c.privateOwners, observations := c.observations, episodes := c.episodes,
               workingSets := c.workingSets, memories := c.memories)
    && SortOf(Less, b.privateOwners, c.privateOwners)
    && SortOf(RowLess<Observation>, b.observations, c.observations)
    && EpisodesSorted(b.episodes, c.episodes)
    && SortOf(RowLess<WorkingSet>, b.workingSets, c.workingSets)
    && MemoriesSorted(b.memories, c.memories)
  }

  method SortSubjectExport(b: Bundle) returns (c: Bundle)
    ensures SortedForm(b, c)
  {
    LessCompares();
    RowLessCompares<Observation>();
    RowLessCompares<WorkingSet>();
    var owners := Sort(Less, b.privateOwners);
    var observations := Sort(RowLess<Observation>, b.observations);
    var episodes := SortEpisodes(b.episodes);
    var sets := Sort(RowLess<WorkingSet>, b.workingSets);
    var memories := SortMemories(b.memories);
    c := b.(privateOwners := owners, observations := observations, episodes := episodes, workingSets := sets, memories := memories);
  }

  method SortEpisodes(x: seq<PortableEpisode>) returns (y: seq<PortableEpisode>)
    ensures EpisodesSorted(x, y)
  {
    LessCompares();
    RowLessCompares<Outcome>();
    var mid := Sort(EpisodeLess, x);
    y := [];
    for i := 0 to |mid|
      invariant |y| == i && forall k :: 0 <= k < i ==> EpisodeSorted(mid[k], y[k])
    {
      var outcomes := Sort(RowLess<Outcome>, mid[i].outcomes);
      y := y + [mid[i].(outcomes := outcomes)];
    }
  }

  method SortMemories(x: seq<PortableMemory>) returns (y: seq<PortableMemory>)
    ensures MemoriesSorted(x, y)
  {
    LessCompares();
    var mid := Sort(MemoryLess, x);
    y := [];
    for i := 0 to |mid|
      invariant |y| == i && forall k :: 0 <= k < i ==> MemorySorted(mid[k], y[k])
    {
      var versions := Sort(VersionBefore, mid[i].versions);
      y := y + [mid[i].(versions := versions)];
    }
  }

  // ----- The sorted form is canonical -----

  /** The bundle names no owner, row, episode, outcome, memory or version id twice. */
  predicate DistinctIds(b: Bundle) {
    && Distinct(b.privateOwners)
    && Distinct(IdsOf(b.observations))
    && Distinct(IdsOf(EpisodeRows(b.episodes)))
    && (forall e :: e in b.episodes ==> Distinct(IdsOf(e.outcomes)))
    && Distinct(IdsOf(b.workingSets))
    && Distinct(IdsOf(MemoryRows(b.memories)))
    && forall m :: m in b.memories ==> Distinct(IdsOf(m.versions))
  }

  /** Sorting by a key that no two elements share has one outcome. */
  lemma KeyedSortUnique<T(!new)>(less: (T, T) -> bool, key: T -> Id, x: seq<T>, y: seq<T>, z: seq<T>)
    requires forall a, b :: less(a, b) == Less(key(a), key(b))
    requires forall i, j :: 0 <= i < j < |x| ==> key(x[i]) != key(x[j])
    requires SortOf(less, x, y) && SortOf(less, x, z)
    ensures y == z
  {
    var elements := set e | e in x;
    IdsOrdered(set e | e in x :: key(e));
    forall a, b | a in elements && b in elements ensures less(a, b) || less(b, a) || a == b {
      var i :| 0 <= i < |x| && x[i] == a;
      var j :| 0 <= j < |x| && x[j] == b;
      LessOrder(key(a), key(b));
    }
    SortUnique(less, x, y, z);
  }

  lemma RowsSortUnique<T(!new)>(x: seq<Row<T>>, y: seq<Row<T>>, z: seq<Row<T>>)
    requires Distinct(IdsOf(x)) && SortOf(RowLess<T>, x, y) && SortOf(RowLess<T>, x, z)
    ensures y == z
  {
    forall i, j | 0 <= i < j < |x| ensures x[i].id != x[j].id {
      assert IdsOf(x)[i] != IdsOf(x)[j];
    }
    KeyedSortUnique(RowLess<T>, (r: Row<T>) => r.id, x, y, z);
  }

  lemma VersionsOrdered(rows: set<Row<Version>>)
    requires forall x, y | x in rows && y in rows :: x.id == y.id ==> x == y
    ensures OrderOn(VersionBefore, rows)
  {
    forall x, y | x in rows && y in rows
      ensures !VersionBefore(x, x) && (x == y || VersionBefore(x, y) || VersionBefore(y, x))
    {
      LessOrder(x.id, y.id);
    }
    forall x, y, z | x in rows && y in rows && z in rows && VersionBefore(x, y) && VersionBefore(y, z)
      ensures VersionBefore(x, z)
    {
      if Less(x.id, y.id) && Less(y.id, z.id) {
        LessTransitive(x.id, y.id, z.id);
      }
    }
  }

  lemma VersionsSortUnique(x: seq<Row<Version>>, y: seq<Row<Version>>, z: seq<Row<Version>>)
    requires Distinct(IdsOf(x)) && SortOf(VersionBefore, x, y) && SortOf(VersionBefore, x, z)
    ensures y == z
  {
    forall i, j | 0 <= i < j < |x| ensures x[i].id != x[j].id {
      assert IdsOf(x)[i] != IdsOf(x)[j];
    }
    VersionsOrdered(set e | e in x);
    SortUnique(VersionBefore, x, y, z);
  }

  lemma SortKeepsElements<T>(less: (T, T) -> bool, x: seq<T>, y: seq<T>)
    requires SortOf(less, x, y)
    ensures forall e :: e in x <==> e in y
  {
    forall e ensures e in x <==> e in y {
      assert e in multiset(x) <==> e in multiset(y);
    }
  }

  lemma EpisodesSortUnique(x: seq<PortableEpisode>, y: seq<PortableEpisode>, z: seq<PortableEpisode>)
    requires Distinct(IdsOf(EpisodeRows(x))) && forall e :: e in x ==> Distinct(IdsOf(e.outcomes))
    requires EpisodesSorted(x, y) && EpisodesSorted(x, z)
    ensures y == z
  {
    var mid: seq<PortableEpisode> :| SortOf(EpisodeLess, x, mid) && |mid| == |y| && forall i :: 0 <= i < |y| ==> EpisodeSorted(mid[i], y[i]);
    var other: seq<PortableEpisode> :| SortOf(EpisodeLess, x, other) && |other| == |z| && forall i :: 0 <= i < |z| ==> EpisodeSorted(other[i], z[i]);
    forall i, j | 0 <= i < j < |x| ensures x[i].id != x[j].id {
      assert IdsOf(EpisodeRows(x))[i] != IdsOf(EpisodeRows(x))[j];
    }
    KeyedSortUnique(EpisodeLess, (e: PortableEpisode) => e.id, x, mid, other);
    SortKeepsElements(EpisodeLess, x, mid);
    forall i | 0 <= i < |y| ensures y[i] == z[i] {
      assert mid[i] in mid;
      RowsSortUnique(mid[i].outcomes, y[i].outcomes, z[i].outcomes);
    }
  }

  lemma MemoriesSortUnique(x: seq<PortableMemory>, y: seq<PortableMemory>, z: seq<PortableMemory>)
    requires Distinct(IdsOf(MemoryRows(x))) && forall m :: m in x ==> Distinct(IdsOf(m.versions))
    requires MemoriesSorted(x, y) && MemoriesSorted(x, z)
    ensures y == z
  {
    var mid: seq<PortableMemory> :| SortOf(MemoryLess, x, mid) && |mid| == |y| && forall i :: 0 <= i < |y| ==> MemorySorted(mid[i], y[i]);
    var other: seq<PortableMemory> :| SortOf(MemoryLess, x, other) && |other| == |z| && forall i :: 0 <= i < |z| ==> MemorySorted(other[i], z[i]);
    forall i, j | 0 <= i < j < |x| ensures x[i].id != x[j].id {
      assert IdsOf(MemoryRows(x))[i] != IdsOf(MemoryRows(x))[j];
    }
    KeyedSortUnique(MemoryLess, (m: PortableMemory) => m.id, x, mid, other);
    SortKeepsElements(MemoryLess, x, mid);
    forall i | 0 <= i < |y| ensures y[i] == z[i] {
      assert mid[i] in mid;
      VersionsSortUnique(mid[i].versions, y[i].versions, z[i].versions);
    }
  }

  /** A bundle without repeated ids has one sorted form, however its sections were ordered and ties broken. */
  lemma SortedFormUnique(b: Bundle, c: Bundle, d: Bundle)
    requires DistinctIds(b) && SortedForm(b, c) && SortedForm(b, d)
    ensures c == d
  {
    KeyedSortUnique(Less, (id: Id) => id, b.privateOwners, c.privateOwners, d.privateOwners);
    RowsSortUnique(b.observations, c.observations, d.observations);
    RowsSortUnique(b.workingSets, c.workingSets, d.workingSets);
    EpisodesSortUnique(b.episodes, c.episodes, d.episodes);
    MemoriesSortUnique(b.memories, c.memories, d.memories);
  }

  /** Bundles that list the same things in any order have the same sorted form. */
  ghost predicate Reordered(b: Bundle, c: Bundle) {
    && c == b.(privateOwners := c.privateOwners, observations := c.observations, episodes := c.episodes,
               workingSets := c.workingSets, memories := c.memories)
    && multiset(b.privateOwners) == multiset(c.privateOwners)
    && multiset(b.observations) == multiset(c.observations)
    && multiset(b.episodes) == multiset(c.episodes)
    && multiset(b.workingSets) == multiset(c.workingSets)
    && multiset(b.memories) == multiset(c.memories)
  }

  lemma OrderDoesNotMatter(b: Bundle, c: Bundle, sorted: Bundle, sorted': Bundle)
    requires DistinctIds(b) && Reordered(b, c) && SortedForm(b, sorted) && SortedForm(c, sorted')
    ensures sorted == sorted'
  {
    assert EpisodesSorted(b.episodes, sorted'.episodes) by {
      var mid: seq<PortableEpisode> :| SortOf(EpisodeLess, c.episodes, mid) && |mid| == |sorted'.episodes|
        && forall i :: 0 <= i < |mid| ==> EpisodeSorted(mid[i], sorted'.episodes[i]);
      assert SortOf(EpisodeLess, b.episodes, mid);
    }
    assert MemoriesSorted(b.memories, sorted'.memories) by {
      var mid: seq<PortableMemory> :| SortOf(MemoryLess, c.memories, mid) && |mid| == |sorted'.memories|
        && forall i :: 0 <= i < |mid| ==> MemorySorted(mid[i], sorted'.memories[i]);
      assert SortOf(MemoryLess, b.memories, mid);
    }
    SortedFormUnique(b, sorted, sorted');
  }
}
