/** The helpers of ProjectConverter (gcbmwalltowall/converter/projectconverter.py)
    that decide the column order of the transition table, the disturbance
    order, the flattened pivot column names, whether cohorts are enabled, and
    which layers and masks go into each dataset. */
module ProjectConversion {
  import opened Common

  // ---------------------------------------------------------------------------
  // Shared sequence facts

  lemma {:induction false} CountInDistinct<T>(s: seq<T>, x: T)
    requires NoDuplicates(s)
    ensures multiset(s)[x] == if x in s then 1 else 0
  {
    if s != [] {
      assert s == [s[0]] + s[1..];
      assert NoDuplicates(s[1..]) by {
        forall i, j | 0 <= i < j < |s[1..]| ensures s[1..][i] != s[1..][j] {
          assert s[1..][i] == s[i + 1] && s[1..][j] == s[j + 1];
        }
      }
      CountInDistinct(s[1..], x);
      assert s[0] !in s[1..] by {
        forall j | 0 <= j < |s[1..]| ensures s[1..][j] != s[0] {
          assert s[1..][j] == s[j + 1];
        }
      }
    }
  }

  /** Two duplicate-free sequences with the same elements are permutations of
      each other. */
  lemma DistinctSameMultiset<T>(a: seq<T>, b: seq<T>)
    requires NoDuplicates(a) && NoDuplicates(b)
    requires forall x :: x in a <==> x in b
    ensures multiset(a) == multiset(b)
  {
    forall x ensures multiset(a)[x] == multiset(b)[x] {
      CountInDistinct(a, x);
      CountInDistinct(b, x);
    }
  }

  lemma {:induction false} FilterNoDuplicates<T(!new)>(s: seq<T>, keep: T -> bool)
    requires NoDuplicates(s)
    ensures NoDuplicates(Filter(s, keep))
  {
    if s != [] {
      assert NoDuplicates(s[1..]) by {
        forall i, j | 0 <= i < j < |s[1..]| ensures s[1..][i] != s[1..][j] {
          assert s[1..][i] == s[i + 1] && s[1..][j] == s[j + 1];
        }
      }
      FilterNoDuplicates(s[1..], keep);
      assert s[0] !in s[1..] by {
        forall j | 0 <= j < |s[1..]| ensures s[1..][j] != s[0] {
          assert s[1..][j] == s[j + 1];
        }
      }
    }
  }

  // ---------------------------------------------------------------------------
  // Transition table column order

  /** The sort key: "id", then any name containing "disturbance_type", then
      names ending "_match", then "state.age", then
      "state.regeneration_delay", then everything else. */
  function Category(item: string): (c: nat)
    ensures c <= 5
  {
    if item == "id" then 0
    else if Contains(item, "disturbance_type") then 1
    else if EndsWith(item, "_match") then 2
    else if item == "state.age" then 3
    else if item == "state.regeneration_delay" then 4
    else 5
  }

  function InCategory(c: nat): string -> bool
  {
    x => Category(x) == c
  }

  function AtLeast(c: nat): string -> bool
  {
    x => Category(x) >= c
  }

  /** The columns of categories c..5, category by category, each in its
      original order. */
  function Buckets(cols: seq<string>, c: nat): seq<string>
    decreases 6 - c
  {
    if c > 5 then [] else Filter(cols, InCategory(c)) + Buckets(cols, c + 1)
  }

  /** sorted(cols, key=Category): Python's sort is stable, so the result is the
      columns grouped by category, each group in its original order. */
  function SortTransitionColumns(cols: seq<string>): seq<string>
  {
    Buckets(cols, 0)
  }

  lemma {:induction false} BucketsAtLeast(cols: seq<string>, c: nat)
    ensures forall x :: x in Buckets(cols, c) ==> Category(x) >= c
    decreases 6 - c
  {
    if c <= 5 {
      BucketsAtLeast(cols, c + 1);
    }
  }

  predicate CategoriesSorted(s: seq<string>)
  {
    forall i, j :: 0 <= i < j < |s| ==> Category(s[i]) <= Category(s[j])
  }

  lemma SortedAppend(head: seq<string>, tail: seq<string>, c: nat)
    requires forall x :: x in head ==> Category(x) == c
    requires forall x :: x in tail ==> Category(x) > c
    requires CategoriesSorted(tail)
    ensures CategoriesSorted(head + tail)
  {
    var b := head + tail;
    forall i, j | 0 <= i < j < |b| ensures Category(b[i]) <= Category(b[j]) {
      if j < |head| {
        assert b[i] in head && b[j] in head;
      } else if i < |head| {
        assert b[i] in head && b[j] == tail[j - |head|];
      } else {
        assert b[i] == tail[i - |head|] && b[j] == tail[j - |head|];
      }
    }
  }

  lemma {:induction false} BucketsSorted(cols: seq<string>, c: nat)
    ensures CategoriesSorted(Buckets(cols, c))
    decreases 6 - c
  {
    if c <= 5 {
      BucketsSorted(cols, c + 1);
      BucketsAtLeast(cols, c + 1);
      SortedAppend(Filter(cols, InCategory(c)), Buckets(cols, c + 1), c);
    }
  }

  /** Columns of category at least c split into those of category c and those
      above. */
  lemma {:induction false} SplitAtLeast(cols: seq<string>, c: nat)
    ensures multiset(Filter(cols, AtLeast(c))) == multiset(Filter(cols, InCategory(c))) + multiset(Filter(cols, AtLeast(c + 1)))
  {
    if cols != [] {
      SplitAtLeast(cols[1..], c);
    }
  }

  lemma {:induction false} BucketsPermutation(cols: seq<string>, c: nat)
    ensures multiset(Buckets(cols, c)) == multiset(Filter(cols, AtLeast(c)))
    decreases 6 - c
  {
    if c > 5 {
      NothingAbove(cols, c);
    } else {
      BucketsPermutation(cols, c + 1);
      SplitAtLeast(cols, c);
    }
  }

  lemma {:induction false} NothingAbove(cols: seq<string>, c: nat)
    requires c > 5
    ensures Filter(cols, AtLeast(c)) == []
  {
    if cols != [] {
      NothingAbove(cols[1..], c);
    }
  }

  lemma {:induction false} EverythingAtLeastZero(cols: seq<string>)
    ensures Filter(cols, AtLeast(0)) == cols
  {
    if cols != [] {
      EverythingAtLeastZero(cols[1..]);
    }
  }

  lemma {:induction false} FilterOfBucket(cols: seq<string>, c: nat, d: nat)
    ensures Filter(Filter(cols, InCategory(d)), InCategory(c)) == if c == d then Filter(cols, InCategory(c)) else []
  {
    if cols != [] {
      FilterOfBucket(cols[1..], c, d);
      var head: seq<string> := if Category(cols[0]) == d then [cols[0]] else [];
      FilterConcat(head, Filter(cols[1..], InCategory(d)), InCategory(c));
    }
  }

  lemma {:induction false} BucketsStable(cols: seq<string>, c: nat, d: nat)
    requires d <= 6
    ensures Filter(Buckets(cols, d), InCategory(c)) == if d <= c <= 5 then Filter(cols, InCategory(c)) else []
    decreases 6 - d
  {
    if d <= 5 {
      BucketsStable(cols, c, d + 1);
      FilterConcat(Filter(cols, InCategory(d)), Buckets(cols, d + 1), InCategory(c));
      FilterOfBucket(cols, c, d);
    }
  }

  /** The sorted columns are a permutation of the columns, in non-decreasing
      category, and within a category in their original order. */
  lemma SortTransitionColumnsFacts(cols: seq<string>)
    ensures multiset(SortTransitionColumns(cols)) == multiset(cols)
    ensures CategoriesSorted(SortTransitionColumns(cols))
    ensures forall c: nat :: c <= 5 ==> Filter(SortTransitionColumns(cols), InCategory(c)) == Filter(cols, InCategory(c))
  {
    BucketsPermutation(cols, 0);
    EverythingAtLeastZero(cols);
    BucketsSorted(cols, 0);
    forall c: nat | c <= 5 ensures Filter(SortTransitionColumns(cols), InCategory(c)) == Filter(cols, InCategory(c)) {
      BucketsStable(cols, c, 0);
    }
  }

  // ---------------------------------------------------------------------------
  // Disturbance order

  /** The database's disturbance types: name to code, in code order (a dict,
      so each name once). */
  type DbTypes = seq<(string, int)>

  function NameIs(name: string): ((string, int)) -> bool
  {
    (e: (string, int)) => e.0 == name
  }

  /** ordered_db_dist_types[name] */
  function CodeOf(db: DbTypes, name: string): (r: Option<int>)
    ensures r.Some? <==> name in Firsts(db)
    ensures r.Some? ==> (name, r.value) in db
  {
    match FirstIndex(db, NameIs(name))
    case None => None
    case Some(k) => Some(db[k].1)
  }

  function Known(db: DbTypes): string -> bool
  {
    n => n in Firsts(db)
  }

  function NotIn(names: seq<string>): ((string, int)) -> bool
  {
    (e: (string, int)) => e.0 !in names
  }

  /** The database entries of the given known names, in their order. */
  function EntriesOf(db: DbTypes, names: seq<string>): (r: seq<(string, int)>)
    requires forall n :: n in names ==> n in Firsts(db)
    ensures |r| == |names| && forall i :: 0 <= i < |names| ==> r[i] == (names[i], CodeOf(db, names[i]).value)
  {
    seq(|names|, i requires 0 <= i < |names| => (names[i], CodeOf(db, names[i]).value))
  }

  /** The user's order with the unknown names removed. */
  function KnownUserOrder(user: seq<string>, db: DbTypes): (r: seq<string>)
    ensures forall n :: n in r ==> n in Firsts(db)
  {
    Filter(user, Known(db))
  }

  /** The order's entries: the user's known types in the user's order, then
      the remaining database types in database order. */
  function OrderEntries(user: seq<string>, db: DbTypes): seq<(string, int)>
  {
    EntriesOf(db, KnownUserOrder(user, db)) + Filter(db, NotIn(user))
  }

  /** A user order with a repeated name is rejected; otherwise the codes of
      the order's entries. */
  function DisturbanceOrderSpec(user: seq<string>, db: DbTypes): Result<seq<int>>
  {
    if !NoDuplicates(user) then Err(DuplicateDisturbanceOrder) else Ok(Seconds(OrderEntries(user, db)))
  }

  /** list.remove: the first occurrence removed. */
  function RemoveFirst<T(==)>(s: seq<T>, x: T): (r: seq<T>)
    requires x in s
    ensures |r| == |s| - 1
  {
    if s[0] == x then s[1..] else [s[0]] + RemoveFirst(s[1..], x)
  }

  lemma TailDistinct<T>(s: seq<T>)
    requires NoDuplicates(s) && s != []
    ensures NoDuplicates(s[1..]) && s[0] !in s[1..]
  {
    forall i, j | 0 <= i < j < |s[1..]| ensures s[1..][i] != s[1..][j] {
      assert s[1..][i] == s[i + 1] && s[1..][j] == s[j + 1];
    }
    forall j | 0 <= j < |s[1..]| ensures s[1..][j] != s[0] {
      assert s[1..][j] == s[j + 1];
    }
  }

  /** Removing an element from a filtered duplicate-free list is filtering
      with that element excluded. */
  lemma {:induction false} RemoveFromFilter<T(!new)>(s: seq<T>, p: T -> bool, q: T -> bool, x: T)
    requires NoDuplicates(s) && x in Filter(s, p)
    requires forall y :: y in s ==> (q(y) <==> p(y) && y != x)
    ensures RemoveFirst(Filter(s, p), x) == Filter(s, q)
  {
    TailDistinct(s);
    var tail := Filter(s[1..], p);
    var fp := Filter(s, p);
    assert fp == (if p(s[0]) then [s[0]] else []) + tail;
    assert forall y :: y in s[1..] ==> y in s;
    if s[0] == x {
      assert x !in tail;
      assert p(x);
      assert fp[0] == x && fp[1..] == tail;
      assert Filter(s, q) == Filter(s[1..], q);
      FilterSame(s[1..], p, q);
    } else if p(s[0]) {
      assert x in tail;
      RemoveFromFilter(s[1..], p, q, x);
      assert fp[0] == s[0] && fp[1..] == tail;
      assert RemoveFirst(fp, x) == [s[0]] + RemoveFirst(tail, x);
      assert Filter(s, q) == [s[0]] + Filter(s[1..], q);
    } else {
      assert fp == tail;
      RemoveFromFilter(s[1..], p, q, x);
      assert Filter(s, q) == Filter(s[1..], q);
    }
  }

  lemma {:induction false} FilterSame<T(!new)>(s: seq<T>, p: T -> bool, q: T -> bool)
    requires forall y :: y in s ==> p(y) == q(y)
    ensures Filter(s, p) == Filter(s, q)
  {
    if s != [] {
      assert forall y :: y in s[1..] ==> y in s;
      FilterSame(s[1..], p, q);
    }
  }

  /** The names kept after the first j unknown names were removed. */
  function KeptAfter(db: DbTypes, unknown: seq<string>, j: nat): string -> bool
    requires j <= |unknown|
  {
    n => n in Firsts(db) || n in unknown[j..]
  }

  /** The user's list that the caller passes and that the conversion edits. */
  class UserOrder {
    var items: seq<string>

    constructor(items: seq<string>)
      ensures this.items == items
    {
      this.items := items;
    }
  }

  /** The user's unknown names removed from the list one by one. */
  method RemoveUnknown(user: UserOrder, db: DbTypes)
    requires NoDuplicates(user.items)
    modifies user
    ensures user.items == KnownUserOrder(old(user.items), db)
  {
    var original := user.items;
    var unknown := Filter(original, (n: string) => n !in Firsts(db));
    FilterNoDuplicates(original, (n: string) => n !in Firsts(db));
    forall y | y in original ensures KeptAfter(db, unknown, 0)(y) {
      if y !in Firsts(db) {
        FilterKeeps(original, (n: string) => n !in Firsts(db), y);
      }
    }
    FilterKeepsAll(original, KeptAfter(db, unknown, 0));
    for j := 0 to |unknown|
      invariant user.items == Filter(original, KeptAfter(db, unknown, j))
    {
      var n := unknown[j];
      assert n in unknown;
      FilterKeeps(original, KeptAfter(db, unknown, j), n);
      RemovingNext(original, db, unknown, j);
      RemoveFromFilter(original, KeptAfter(db, unknown, j), KeptAfter(db, unknown, j + 1), n);
      user.items := RemoveFirst(user.items, n);
    }
    FilterSame(original, KeptAfter(db, unknown, |unknown|), Known(db));
  }

  lemma RemovingNext(original: seq<string>, db: DbTypes, unknown: seq<string>, j: nat)
    requires j < |unknown| && NoDuplicates(unknown) && unknown[j] !in Firsts(db)
    ensures forall y :: y in original ==>
      (KeptAfter(db, unknown, j + 1)(y) <==> KeptAfter(db, unknown, j)(y) && y != unknown[j])
  {
    assert unknown[j..] == [unknown[j]] + unknown[j + 1..];
    forall y | y in original
      ensures KeptAfter(db, unknown, j + 1)(y) <==> KeptAfter(db, unknown, j)(y) && y != unknown[j]
    {
      if y in unknown[j + 1..] {
        var k :| 0 <= k < |unknown[j + 1..]| && unknown[j + 1..][k] == y;
        assert unknown[j + 1 + k] == y;
      }
    }
  }

  method KnownCodes(names: seq<string>, db: DbTypes) returns (order: seq<int>)
    requires forall n :: n in names ==> n in Firsts(db)
    ensures order == Seconds(EntriesOf(db, names))
  {
    order := [];
    for i := 0 to |names|
      invariant order == Seconds(EntriesOf(db, names[..i]))
    {
      order := order + [CodeOf(db, names[i]).value];
    }
    assert names[..|names|] == names;
  }

  method RemainingEntries(db: DbTypes, user: seq<string>) returns (rest: seq<(string, int)>)
    ensures rest == Filter(db, NotIn(user))
  {
    rest := [];
    for k := 0 to |db|
      invariant rest == Filter(db[..k], NotIn(user))
    {
      FilterSnoc(db, k, NotIn(user));
      if db[k].0 !in user {
        rest := rest + [db[k]];
      }
    }
    assert db[..|db|] == db;
  }

  method LoadDisturbanceOrder(user: UserOrder, db: DbTypes) returns (r: Result<seq<int>>)
    modifies user
    ensures r == DisturbanceOrderSpec(old(user.items), db)
    ensures user.items == if r.Ok? then KnownUserOrder(old(user.items), db) else old(user.items)
  {
    var original := user.items;
    if !NoDuplicates(original) {
      return Err(DuplicateDisturbanceOrder);
    }
    RemoveUnknown(user, db);
    var known := user.items;
    assert known == KnownUserOrder(original, db);
    var order := KnownCodes(known, db);
    var rest := RemainingEntries(db, original);
    OrderCodes(original, db, known, rest);
    r := Ok(order + Seconds(rest));
  }

  lemma OrderCodes(original: seq<string>, db: DbTypes, known: seq<string>, rest: DbTypes)
    requires known == KnownUserOrder(original, db) && rest == Filter(db, NotIn(original))
    ensures Seconds(OrderEntries(original, db)) == Seconds(EntriesOf(db, known)) + Seconds(rest)
  {
    CodesConcat(EntriesOf(db, known), rest);
  }

  lemma {:induction false} FilterKeepsAll<T(!new)>(s: seq<T>, keep: T -> bool)
    requires forall y :: y in s ==> keep(y)
    ensures Filter(s, keep) == s
  {
    if s != [] {
      assert forall y :: y in s[1..] ==> y in s;
      FilterKeepsAll(s[1..], keep);
    }
  }

  /** A user order is rejected exactly when it repeats a name. */
  lemma DisturbanceOrderRejectsDuplicates(user: seq<string>, db: DbTypes)
    ensures DisturbanceOrderSpec(user, db).Err? <==> exists i, j :: 0 <= i < j < |user| && user[i] == user[j]
  {
  }

  /** With a duplicate-free user order, the result is a permutation of the
      database codes: each database type appears exactly once. */
  lemma DisturbanceOrderPermutation(user: seq<string>, db: DbTypes)
    requires NoDuplicates(user) && NoDuplicates(Firsts(db))
    ensures DisturbanceOrderSpec(user, db).Ok?
    ensures multiset(DisturbanceOrderSpec(user, db).value) == multiset(Seconds(db))
  {
    var entries := OrderEntries(user, db);
    OrderEntriesDistinct(user, db);
    OrderEntriesMembers(user, db);
    DbDistinct(db);
    DistinctSameMultiset(entries, db);
    CodesPermutation(entries, db);
  }

  lemma DbDistinct(db: DbTypes)
    requires NoDuplicates(Firsts(db))
    ensures NoDuplicates(db)
  {
    forall i, j | 0 <= i < j < |db| ensures db[i] != db[j] {
      assert Firsts(db)[i] != Firsts(db)[j];
    }
  }

  lemma OrderEntriesDistinct(user: seq<string>, db: DbTypes)
    requires NoDuplicates(user) && NoDuplicates(Firsts(db))
    ensures NoDuplicates(OrderEntries(user, db))
  {
    var known := KnownUserOrder(user, db);
    FilterNoDuplicates(user, Known(db));
    DbDistinct(db);
    FilterNoDuplicates(db, NotIn(user));
    var a := EntriesOf(db, known);
    var b := Filter(db, NotIn(user));
    forall i, j | 0 <= i < j < |a + b| ensures (a + b)[i] != (a + b)[j] {
      if j < |a| {
        assert a[i].0 == known[i] && a[j].0 == known[j];
      } else if i < |a| {
        assert (a + b)[j] in b;
        assert known[i] in user;
      }
    }
  }

  lemma OrderEntriesMembers(user: seq<string>, db: DbTypes)
    requires NoDuplicates(Firsts(db))
    ensures forall e :: e in OrderEntries(user, db) <==> e in db
  {
    var known := KnownUserOrder(user, db);
    var a := EntriesOf(db, known);
    var b := Filter(db, NotIn(user));
    forall e | e in db ensures e in a + b {
      var k :| 0 <= k < |db| && db[k] == e;
      if e.0 in user {
        FilterKeeps(user, Known(db), e.0);
        var i :| 0 <= i < |known| && known[i] == e.0;
        var code := CodeOf(db, e.0).value;
        var m :| 0 <= m < |db| && db[m] == (e.0, code);
        assert Firsts(db)[m] == Firsts(db)[k];
        assert a[i] == e;
      } else {
        FilterKeeps(db, NotIn(user), e);
      }
    }
  }

  lemma CodesConcat(x: DbTypes, y: DbTypes)
    ensures Seconds(x + y) == Seconds(x) + Seconds(y)
  {
  }

  /** Taking out the element at k leaves the rest of the multiset. */
  lemma WithoutAt<T>(b: seq<T>, k: nat)
    requires k < |b|
    ensures multiset(b) == multiset(b[..k] + b[k + 1..]) + multiset{b[k]}
  {
    assert b == b[..k] + [b[k]] + b[k + 1..];
  }

  lemma RestPermutation<T>(a: seq<T>, b: seq<T>, k: nat)
    requires multiset(a) == multiset(b) && a != [] && k < |b| && b[k] == a[0]
    ensures multiset(a[1..]) == multiset(b[..k] + b[k + 1..])
  {
    WithoutAt(b, k);
    WithoutAt(a, 0);
    assert a[..0] + a[1..] == a[1..];
    forall z ensures multiset(a[1..])[z] == multiset(b[..k] + b[k + 1..])[z] {
      assert multiset(a)[z] == multiset(b)[z];
    }
  }

  lemma CodesWithoutAt(b: DbTypes, k: nat)
    requires k < |b|
    ensures multiset(Seconds(b)) == multiset(Seconds(b[..k] + b[k + 1..])) + multiset{b[k].1}
  {
    var cb := Seconds(b);
    WithoutAt(cb, k);
    assert cb[..k] == Seconds(b[..k]) && cb[k + 1..] == Seconds(b[k + 1..]);
    CodesConcat(b[..k], b[k + 1..]);
  }

  lemma {:induction false} CodesPermutation(a: DbTypes, b: DbTypes)
    requires multiset(a) == multiset(b)
    ensures multiset(Seconds(a)) == multiset(Seconds(b))
    decreases |a|
  {
    if a == [] {
      assert |b| == |multiset(b)| == 0;
    } else {
      assert a[0] in multiset(b);
      var k :| 0 <= k < |b| && b[k] == a[0];
      RestPermutation(a, b, k);
      CodesPermutation(a[1..], b[..k] + b[k + 1..]);
      CodesWithoutAt(b, k);
      assert Seconds(a) == [a[0].1] + Seconds(a[1..]);
    }
  }

  // ---------------------------------------------------------------------------
  // Pivot columns

  /** A frame's column index: single names, or pairs of levels. */
  datatype ColumnIndex = Flat(names: seq<string>) | TwoLevel(pairs: seq<(string, string)>)

  /** Each pair renamed to its second level if that is non-empty, else its
      first. */
  function FlattenedNames(pairs: seq<(string, string)>): (r: seq<string>)
    ensures |r| == |pairs|
  {
    seq(|pairs|, i requires 0 <= i < |pairs| => if pairs[i].1 != "" then pairs[i].1 else pairs[i].0)
  }

  class PivotFrame {
    var columns: ColumnIndex

    constructor(columns: ColumnIndex)
      ensures this.columns == columns
    {
      this.columns := columns;
    }
  }

  /** The columns replaced by their flattened names; asking a single-level
      index with columns for its second level raises. */
  method FlattenPivotColumns(frame: PivotFrame) returns (r: Result<()>)
    modifies frame
    ensures old(frame.columns).TwoLevel? ==> r == Ok(()) && frame.columns == Flat(FlattenedNames(old(frame.columns).pairs))
    ensures old(frame.columns).Flat? && old(frame.columns).names != [] ==> r == Err(IndexOutOfRange) && frame.columns == old(frame.columns)
    ensures old(frame.columns) == Flat([]) ==> r == Ok(()) && frame.columns == old(frame.columns)
  {
    match frame.columns
    case Flat(names) =>
      if names != [] {
        return Err(IndexOutOfRange);
      }
      frame.columns := Flat([]);
      return Ok(());
    case TwoLevel(pairs) =>
      var flat: seq<string> := [];
      for i := 0 to |pairs|
        invariant flat == FlattenedNames(pairs[..i])
      {
        flat := flat + [if pairs[i].1 != "" then pairs[i].1 else pairs[i].0];
      }
      assert pairs[..|pairs|] == pairs;
      frame.columns := Flat(flat);
      return Ok(());
  }

  /** Flattening keeps a named second level and falls back to the first level
      for pivoted-away columns; a column is lost only if both are empty. */
  lemma FlattenedNamesFacts(pairs: seq<(string, string)>, i: nat)
    requires i < |pairs|
    ensures FlattenedNames(pairs)[i] in {pairs[i].0, pairs[i].1}
    ensures pairs[i].1 != "" ==> FlattenedNames(pairs)[i] == pairs[i].1
    ensures pairs[i].1 == "" ==> FlattenedNames(pairs)[i] == pairs[i].0
    ensures FlattenedNames(pairs)[i] == "" <==> pairs[i] == ("", "")
  {
  }

  // ---------------------------------------------------------------------------
  // Datasets

  /** Cohorts are used when requested, when either undisturbed transition file
      exists, or when the project has cohorts. */
  predicate CohortsEnabled(disturbanceCohorts: bool, undisturbedExists: bool, rulesUndisturbedExists: bool, cohortCount: nat)
  {
    disturbanceCohorts || undisturbedExists || rulesUndisturbedExists || cohortCount > 0
  }

  const BaseDatasetName := "inventory.arrowspace"

  /** The base dataset (with ".cohort0" when cohorts are enabled), then one
      dataset per cohort, numbered from 1. */
  function DatasetNames(cohortsEnabled: bool, cohortCount: nat): (r: seq<string>)
    ensures |r| == cohortCount + 1
  {
    [BaseDatasetName + (if cohortsEnabled then ".cohort0" else "")]
    + seq(cohortCount, i requires 0 <= i < cohortCount => BaseDatasetName + ".cohort" + IntToString(i + 1))
  }

  /** No two datasets share a name. */
  lemma DatasetNamesDistinct(disturbanceCohorts: bool, undisturbedExists: bool, rulesUndisturbedExists: bool, cohortCount: nat)
    ensures NoDuplicates(DatasetNames(CohortsEnabled(disturbanceCohorts, undisturbedExists, rulesUndisturbedExists, cohortCount), cohortCount))
  {
    var enabled := CohortsEnabled(disturbanceCohorts, undisturbedExists, rulesUndisturbedExists, cohortCount);
    var r := DatasetNames(enabled, cohortCount);
    var prefix := BaseDatasetName + ".cohort";
    forall i, j | 0 <= i < j < |r| ensures r[i] != r[j] {
      assert enabled;
      assert r[j] == prefix + IntToString(j);
      assert r[i] == prefix + IntToString(i) by {
        if i == 0 { assert IntToString(0) == "0"; }
      }
      if r[i] == r[j] {
        assert IntToString(i) == r[i][|prefix|..] == r[j][|prefix|..] == IntToString(j);
        IntToStringInjective(i, j);
      }
    }
  }

  const OptionalMasks: seq<string> := ["admin_boundary", "eco_boundary"]

  function InCollection(collection: seq<string>): string -> bool
  {
    m => m in collection
  }

  /** "age", then the project's masks present in the collection in project
      order, then the optional boundary masks that are present. */
  function MaskLayersSpec(masks: seq<string>, collection: seq<string>): seq<string>
  {
    ["age"] + Filter(masks, InCollection(collection)) + Filter(OptionalMasks, InCollection(collection))
  }

  method MaskLayers(masks: seq<string>, collection: seq<string>) returns (r: seq<string>)
    ensures r == MaskLayersSpec(masks, collection)
  {
    var selected: seq<string> := [];
    for i := 0 to |masks|
      invariant selected == Filter(masks[..i], InCollection(collection))
    {
      FilterSnoc(masks, i, InCollection(collection));
      if masks[i] in collection {
        selected := selected + [masks[i]];
      }
    }
    assert masks[..|masks|] == masks;
    r := ["age"] + selected;
    if "admin_boundary" in collection {
      r := r + ["admin_boundary"];
    }
    if "eco_boundary" in collection {
      r := r + ["eco_boundary"];
    }
  }

  /** The masks start with "age"; every other mask is in the collection; every
      project mask in the collection is used. */
  lemma MaskLayersFacts(masks: seq<string>, collection: seq<string>)
    ensures var r := MaskLayersSpec(masks, collection);
      && r[0] == "age"
      && (forall i :: 1 <= i < |r| ==> r[i] in collection)
      && (forall m :: m in masks && m in collection ==> m in r)
  {
    var r := MaskLayersSpec(masks, collection);
    forall i | 1 <= i < |r| ensures r[i] in collection {
      assert r[i] in Filter(masks, InCollection(collection)) + Filter(OptionalMasks, InCollection(collection));
    }
    forall m | m in masks && m in collection ensures m in r {
      FilterKeeps(masks, InCollection(collection), m);
    }
  }

  /** A converted layer: its name and tags. */
  datatype ArrowLayer = ArrowLayer(name: string, tags: seq<string>)

  function LayerNames(layers: seq<ArrowLayer>): (r: seq<string>)
    ensures |r| == |layers| && forall i :: 0 <= i < |layers| ==> r[i] == layers[i].name
  {
    seq(|layers|, i requires 0 <= i < |layers| => layers[i].name)
  }

  /** A base layer a cohort inherits: not a historic or last-pass disturbance
      layer, and not shadowed by a cohort layer of the same name. */
  function Inherited(cohortNames: seq<string>): ArrowLayer -> bool
  {
    (l: ArrowLayer) => "historic_disturbance" !in l.tags && "last_pass_disturbance" !in l.tags && l.name !in cohortNames
  }

  function CohortLayersSpec(cohort: seq<ArrowLayer>, base: seq<ArrowLayer>): seq<ArrowLayer>
  {
    cohort + Filter(base, Inherited(LayerNames(cohort)))
  }

  method CohortLayers(cohort: seq<ArrowLayer>, base: seq<ArrowLayer>) returns (r: seq<ArrowLayer>)
    ensures r == CohortLayersSpec(cohort, base)
  {
    var names := LayerNames(cohort);
    r := cohort;
    for i := 0 to |base|
      invariant r == cohort + Filter(base[..i], Inherited(names))
    {
      FilterSnoc(base, i, Inherited(names));
      var l := base[i];
      assert Inherited(names)(l) <==>
        !("historic_disturbance" in l.tags || "last_pass_disturbance" in l.tags || l.name in names);
      if "historic_disturbance" in l.tags || "last_pass_disturbance" in l.tags || l.name in names {
        continue;
      }
      r := r + [l];
    }
    assert base[..|base|] == base;
  }

  /** A cohort's collection starts with the cohort's layers; a base layer is in
      it exactly when it is inherited, and no inherited layer shares a name
      with a cohort layer. */
  lemma CohortLayersFacts(cohort: seq<ArrowLayer>, base: seq<ArrowLayer>)
    ensures var r := CohortLayersSpec(cohort, base);
      && r[..|cohort|] == cohort
      && (forall l :: l in r[|cohort|..] ==> l in base && Inherited(LayerNames(cohort))(l))
      && (forall l :: l in base && Inherited(LayerNames(cohort))(l) ==> l in r[|cohort|..])
  {
    var r := CohortLayersSpec(cohort, base);
    assert r[|cohort|..] == Filter(base, Inherited(LayerNames(cohort)));
    forall l | l in base && Inherited(LayerNames(cohort))(l) ensures l in r[|cohort|..] {
      FilterKeeps(base, Inherited(LayerNames(cohort)), l);
    }
  }
}
