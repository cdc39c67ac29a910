/** The VM table's multi-key sort: every click re-sorts all rows, last clicked key first. */
module TableSort {
  import opened Records

  datatype Key =
    | KName | KOwner | KCluster | KNode | KVmid | KIp | KSg | KSync | KPower | KUpdated | KManaged | KQuotaExempt
    | KCpu | KMemory | KDiskIo | KNetwork

  datatype Dir = Asc | Desc

  datatype Sort = Sort(key: Key, dir: Dir)

  datatype Cell = Nothing | Number(n: real) | Flag(b: bool) | Text(s: string)

  /** A table row: its VMID and what each column shows. A column always has one type; a metric may be missing. */
  datatype Row = Row(vmid: int, texts: map<Key, string>, flags: map<Key, bool>, numbers: map<Key, real>)

  /** The browser's localeCompare, and how String prints a number or a flag. */
  datatype Locale = Locale(compare: (string, string) -> int, print_: Cell -> string)

  function Value(row: Row, key: Key): Cell {
    match key
    case KVmid => Number(row.vmid as real)
    case KUpdated => Number(if key in row.numbers then row.numbers[key] else 0.0)
    case KCpu | KMemory | KDiskIo | KNetwork => if key in row.numbers then Number(row.numbers[key]) else Nothing
    case KManaged | KQuotaExempt => if key in row.flags then Flag(row.flags[key]) else Nothing
    case _ => if key in row.texts then Text(row.texts[key]) else Nothing
  }

  function Sign(x: real): int {
    if x < 0.0 then -1 else if x > 0.0 then 1 else 0
  }

  function Bit(b: bool): int {
    if b then 1 else 0
  }

  function Printed(loc: Locale, c: Cell): string {
    if c.Text? then c.s else loc.print_(c)
  }

  /** compareSortableValues; only the sign of the result is used. */
  function Compare(loc: Locale, a: Cell, b: Cell): int {
    if a == Nothing && b == Nothing then 0
    else if a == Nothing then 1
    else if b == Nothing then -1
    else if a.Number? && b.Number? then Sign(a.n - b.n)
    else if a.Flag? && b.Flag? then Bit(a.b) - Bit(b.b)
    else loc.compare(Printed(loc, a), Printed(loc, b))
  }

  // ---- comparators ----

  type Comparator = (Row, Row) -> int

  /** Consistent signs and a transitive "not after". */
  ghost predicate Preorder(cmp: Comparator) {
    && (forall a, b :: cmp(a, b) <= 0 <==> cmp(b, a) >= 0)
    && (forall a, b, d :: cmp(a, b) <= 0 && cmp(b, d) <= 0 ==> cmp(a, d) <= 0)
  }

  /** First by `k`, ties by `r`. */
  function Then(k: Comparator, r: Comparator): Comparator {
    (a, b) => if k(a, b) != 0 then k(a, b) else r(a, b)
  }

  function ByKey(loc: Locale, sort: Sort): Comparator {
    (a: Row, b: Row) => if sort.dir == Asc then Compare(loc, Value(a, sort.key), Value(b, sort.key)) else -Compare(loc, Value(a, sort.key), Value(b, sort.key))
  }

  function ByVmid(): Comparator {
    (a: Row, b: Row) => a.vmid - b.vmid
  }

  /** The comparator of sortVMs: from the last sort down to the first, then the VMID. */
  function BySorts(loc: Locale, sorts: seq<Sort>): Comparator {
    if sorts == [] then ByVmid()
    else Then(ByKey(loc, sorts[|sorts| - 1]), BySorts(loc, sorts[..|sorts| - 1]))
  }

  // ---- stable sorting ----

  function Insert(cmp: Comparator, x: Row, ys: seq<Row>): seq<Row> {
    if ys == [] || cmp(x, ys[0]) <= 0 then [x] + ys else [ys[0]] + Insert(cmp, x, ys[1..])
  }

  /** A stable sort: equal rows keep their order. */
  function SortBy(cmp: Comparator, xs: seq<Row>): seq<Row> {
    if xs == [] then [] else Insert(cmp, xs[0], SortBy(cmp, xs[1..]))
  }

  /** sortVMs */
  function SortVms(loc: Locale, items: seq<Row>, sorts: seq<Sort>): seq<Row> {
    SortBy(BySorts(loc, if sorts == [] then [Sort(KUpdated, Desc)] else sorts), items)
  }

  // ---- the reference: what it means to be the stable sort ----

  ghost predicate Ascending(cmp: Comparator, ys: seq<Row>) {
    forall i, j :: 0 <= i < j < |ys| ==> cmp(ys[i], ys[j]) <= 0
  }

  /** The rows that tie with `e`, in order. */
  function Ties(cmp: Comparator, e: Row, xs: seq<Row>): seq<Row> {
    if xs == [] then [] else (if cmp(e, xs[0]) == 0 then [xs[0]] else []) + Ties(cmp, e, xs[1..])
  }

  /** `ys` is ascending and lists every class of tied rows exactly as `xs` does. */
  ghost predicate IsStableSort(cmp: Comparator, xs: seq<Row>, ys: seq<Row>) {
    Ascending(cmp, ys) && forall e :: Ties(cmp, e, ys) == Ties(cmp, e, xs)
  }

  lemma {:induction false} InsertMembers(cmp: Comparator, x: Row, ys: seq<Row>)
    ensures forall z :: z in Insert(cmp, x, ys) <==> z == x || z in ys
  {
    if ys != [] && !(cmp(x, ys[0]) <= 0) {
      InsertMembers(cmp, x, ys[1..]);
      assert ys == [ys[0]] + ys[1..];
    }
  }

  lemma Chain(cmp: Comparator, a: Row, b: Row, d: Row)
    requires Preorder(cmp) && cmp(a, b) <= 0 && cmp(b, d) <= 0
    ensures cmp(a, d) <= 0
  {
  }

  lemma Flip(cmp: Comparator, a: Row, b: Row)
    requires Preorder(cmp)
    ensures cmp(a, b) <= 0 || cmp(b, a) <= 0
  {
  }

  lemma {:induction false} InsertAscends(cmp: Comparator, x: Row, ys: seq<Row>)
    requires Preorder(cmp) && Ascending(cmp, ys)
    ensures Ascending(cmp, Insert(cmp, x, ys))
  {
    hide Preorder;
    if ys != [] {
      if cmp(x, ys[0]) <= 0 {
        forall j | 0 <= j < |ys|
          ensures cmp(x, ys[j]) <= 0
        {
          if j > 0 {
            Chain(cmp, x, ys[0], ys[j]);
          }
        }
      } else {
        Flip(cmp, x, ys[0]);
        var rest := Insert(cmp, x, ys[1..]);
        InsertAscends(cmp, x, ys[1..]);
        InsertMembers(cmp, x, ys[1..]);
        forall j | 0 <= j < |rest|
          ensures cmp(ys[0], rest[j]) <= 0
        {
          assert rest[j] in rest;
          if rest[j] != x {
            var k :| 0 <= k < |ys[1..]| && ys[1..][k] == rest[j];
            assert cmp(ys[0], ys[k + 1]) <= 0;
          }
        }
      }
    }
  }

  lemma TiesChain(cmp: Comparator, e: Row, a: Row, b: Row)
    requires Preorder(cmp)
    ensures cmp(e, a) == 0 && cmp(e, b) == 0 ==> cmp(a, b) == 0
  {
    if cmp(e, a) == 0 && cmp(e, b) == 0 {
      assert cmp(a, e) <= 0 && cmp(b, e) <= 0;
      assert cmp(a, b) <= 0 && cmp(b, a) <= 0;
    }
  }

  /** Inserting puts `x` in front of the rows it ties with. */
  lemma {:induction false} InsertTies(cmp: Comparator, x: Row, ys: seq<Row>, e: Row)
    requires Preorder(cmp)
    ensures Ties(cmp, e, Insert(cmp, x, ys)) == (if cmp(e, x) == 0 then [x] else []) + Ties(cmp, e, ys)
  {
    if ys == [] || cmp(x, ys[0]) <= 0 {
      assert ([x] + ys)[1..] == ys;
    } else {
      InsertTies(cmp, x, ys[1..], e);
      assert ([ys[0]] + Insert(cmp, x, ys[1..]))[1..] == Insert(cmp, x, ys[1..]);
      TiesChain(cmp, e, x, ys[0]);
    }
  }

  lemma {:induction false} SortByIsStable(cmp: Comparator, xs: seq<Row>)
    requires Preorder(cmp)
    ensures IsStableSort(cmp, xs, SortBy(cmp, xs))
  {
    if xs != [] {
      SortByIsStable(cmp, xs[1..]);
      InsertAscends(cmp, xs[0], SortBy(cmp, xs[1..]));
      forall e
        ensures Ties(cmp, e, SortBy(cmp, xs)) == Ties(cmp, e, xs)
      {
        InsertTies(cmp, xs[0], SortBy(cmp, xs[1..]), e);
      }
    }
  }

  lemma {:induction false} TiesContain(cmp: Comparator, xs: seq<Row>, e: Row)
    requires cmp(e, e) == 0 && e in xs
    ensures Ties(cmp, e, xs) != [] && e in Ties(cmp, e, xs)
  {
    if xs[0] != e {
      assert xs == [xs[0]] + xs[1..];
      TiesContain(cmp, xs[1..], e);
    }
  }

  lemma {:induction false} TiesAreMembers(cmp: Comparator, xs: seq<Row>, e: Row)
    ensures forall z :: z in Ties(cmp, e, xs) ==> z in xs && cmp(e, z) == 0
  {
    if xs != [] {
      TiesAreMembers(cmp, xs[1..], e);
    }
  }

  /** There is only one stable sort, so it does not matter which algorithm the engine uses. */
  lemma {:induction false} StableSortIsUnique(cmp: Comparator, ys: seq<Row>, zs: seq<Row>)
    requires Preorder(cmp) && Ascending(cmp, ys) && Ascending(cmp, zs)
    requires forall e :: Ties(cmp, e, ys) == Ties(cmp, e, zs)
    ensures ys == zs
    decreases |ys|
  {
    if ys == [] {
      if zs != [] {
        TiesContain(cmp, zs, zs[0]);
        assert false;
      }
    } else {
      var a := ys[0];
      TiesContain(cmp, ys, a);
      TiesAreMembers(cmp, zs, a);
      assert a in Ties(cmp, a, zs) && zs != [];
      var b := zs[0];
      TiesContain(cmp, zs, b);
      TiesAreMembers(cmp, ys, b);
      assert b in Ties(cmp, b, ys);
      HeadLeast(cmp, ys, b);
      HeadLeast(cmp, zs, a);
      assert cmp(a, b) <= 0 && cmp(b, a) <= 0;
      assert Ties(cmp, a, ys)[0] == a && Ties(cmp, a, zs)[0] == b;
      forall e
        ensures Ties(cmp, e, ys[1..]) == Ties(cmp, e, zs[1..])
      {
        var head := if cmp(e, a) == 0 then [a] else [];
        assert Ties(cmp, e, ys) == head + Ties(cmp, e, ys[1..]) && Ties(cmp, e, zs) == head + Ties(cmp, e, zs[1..]);
        assert (head + Ties(cmp, e, ys[1..]))[|head|..] == Ties(cmp, e, ys[1..]);
        assert (head + Ties(cmp, e, zs[1..]))[|head|..] == Ties(cmp, e, zs[1..]);
      }
      StableSortIsUnique(cmp, ys[1..], zs[1..]);
    }
  }

  lemma HeadLeast(cmp: Comparator, ys: seq<Row>, e: Row)
    requires Preorder(cmp) && Ascending(cmp, ys) && e in ys
    ensures cmp(ys[0], e) <= 0
  {
    var i :| 0 <= i < |ys| && ys[i] == e;
    if i > 0 {
      assert cmp(ys[0], ys[i]) <= 0;
    }
  }

  // ---- sorting by one key after another ----

  /** Two insertions commute unless the rows tie. */
  lemma {:induction false} InsertsCommute(cmp: Comparator, x: Row, y: Row, zs: seq<Row>)
    requires Preorder(cmp) && cmp(x, y) != 0
    ensures Insert(cmp, x, Insert(cmp, y, zs)) == Insert(cmp, y, Insert(cmp, x, zs))
  {
    if zs == [] {
      assert [x, y][1..] == [y] && [y, x][1..] == [x];
    } else {
      var z := zs[0];
      if cmp(x, z) <= 0 {
        assert ([x] + zs)[1..] == zs;
      }
      if cmp(y, z) <= 0 {
        assert ([y] + zs)[1..] == zs;
      }
      if cmp(x, z) > 0 && cmp(y, z) > 0 {
        InsertsCommute(cmp, x, y, zs[1..]);
        assert ([z] + Insert(cmp, x, zs[1..]))[1..] == Insert(cmp, x, zs[1..]);
        assert ([z] + Insert(cmp, y, zs[1..]))[1..] == Insert(cmp, y, zs[1..]);
      } else if cmp(x, z) > 0 {
        assert ([z] + Insert(cmp, x, zs[1..]))[1..] == Insert(cmp, x, zs[1..]);
      } else if cmp(y, z) > 0 {
        assert ([z] + Insert(cmp, y, zs[1..]))[1..] == Insert(cmp, y, zs[1..]);
      }
    }
  }

  /** Comparators that agree on the rows at hand insert alike. */
  lemma {:induction false} InsertAgrees(f: Comparator, g: Comparator, x: Row, ys: seq<Row>)
    requires forall y :: y in ys ==> (f(x, y) <= 0 <==> g(x, y) <= 0)
    ensures Insert(f, x, ys) == Insert(g, x, ys)
  {
    if ys != [] {
      assert ys[0] in ys && forall y :: y in ys[1..] ==> y in ys;
      InsertAgrees(f, g, x, ys[1..]);
    }
  }

  lemma {:induction false} SortByMembers(cmp: Comparator, xs: seq<Row>)
    ensures forall z :: z in SortBy(cmp, xs) <==> z in xs
  {
    if xs != [] {
      SortByMembers(cmp, xs[1..]);
      InsertMembers(cmp, xs[0], SortBy(cmp, xs[1..]));
      assert xs == [xs[0]] + xs[1..];
    }
  }

  /** Sorting an r-sorted list with `x` inserted by `k` is inserting `x` by the combined order. */
  lemma {:induction false} SortAfterInsert(k: Comparator, r: Comparator, x: Row, ys: seq<Row>)
    requires Preorder(k) && Preorder(r) && Preorder(Then(k, r)) && Ascending(r, ys)
    ensures SortBy(k, Insert(r, x, ys)) == Insert(Then(k, r), x, SortBy(k, ys))
    decreases |ys|
  {
    var t := Then(k, r);
    if ys == [] || r(x, ys[0]) <= 0 {
      var zs := SortBy(k, ys);
      SortByMembers(k, ys);
      assert ([x] + ys)[1..] == ys;
      forall z | z in zs
        ensures k(x, z) <= 0 <==> t(x, z) <= 0
      {
        HeadLeast(r, ys, z);
        assert r(x, z) <= 0;
      }
      InsertAgrees(k, t, x, zs);
    } else {
      var y, rest := ys[0], ys[1..];
      SortAfterInsert(k, r, x, rest);
      var inserted := Insert(r, x, rest);
      assert ([y] + inserted)[1..] == inserted;
      var zs := SortBy(k, rest);
      SortByMembers(k, rest);
      InsertMembers(t, x, zs);
      assert r(y, x) <= 0;
      forall z | z in zs || z == x
        ensures k(y, z) <= 0 <==> t(y, z) <= 0
      {
        if z != x {
          HeadLeast(r, ys, z);
        }
      }
      InsertAgrees(k, t, y, zs);
      InsertAgrees(k, t, y, Insert(t, x, zs));
      assert t(x, y) != 0;
      InsertsCommute(t, x, y, zs);
    }
  }

  /** A stable sort by `k` of what is sorted by `r` is the sort by `k` with ties broken by `r`. */
  lemma {:induction false} SortOfSorted(k: Comparator, r: Comparator, xs: seq<Row>)
    requires Preorder(k) && Preorder(r) && Preorder(Then(k, r))
    ensures SortBy(k, SortBy(r, xs)) == SortBy(Then(k, r), xs)
  {
    if xs != [] {
      SortOfSorted(k, r, xs[1..]);
      SortByIsStable(r, xs[1..]);
      SortAfterInsert(k, r, xs[0], SortBy(r, xs[1..]));
    }
  }

  lemma {:induction false} SortAgrees(f: Comparator, g: Comparator, xs: seq<Row>)
    requires forall a, b :: f(a, b) == g(a, b)
    ensures SortBy(f, xs) == SortBy(g, xs)
  {
    if xs != [] {
      SortAgrees(f, g, xs[1..]);
      InsertAgrees(f, g, xs[0], SortBy(f, xs[1..]));
    }
  }

  // ---- the sort state ----

  /** defaultVmSortDir */
  function DefaultDir(key: Key): Dir {
    if key == KUpdated || key == KCpu || key == KMemory || key == KDiskIo || key == KNetwork then Desc else Asc
  }

  function IndexOf(sorts: seq<Sort>, key: Key): (i: int)
    ensures -1 <= i < |sorts|
    ensures i >= 0 ==> sorts[i].key == key && forall j :: 0 <= j < i ==> sorts[j].key != key
    ensures i == -1 ==> forall j :: 0 <= j < |sorts| ==> sorts[j].key != key
  {
    if sorts == [] then -1
    else if sorts[0].key == key then 0
    else var i := IndexOf(sorts[1..], key); if i == -1 then -1 else i + 1
  }

  function Without(sorts: seq<Sort>, index: nat): (rest: seq<Sort>)
    requires index < |sorts|
    ensures |rest| == |sorts| - 1
    ensures forall j :: 0 <= j < |rest| ==> rest[j] == sorts[if j < index then j else j + 1]
  {
    sorts[..index] + sorts[index + 1..]
  }

  /** updateSortState */
  function UpdateSortState(current: seq<Sort>, key: Key): seq<Sort> {
    var index := IndexOf(current, key);
    if index == -1 then current + [Sort(key, DefaultDir(key))]
    else
      var next := Without(current, index);
      var dir := if index == |current| - 1 then (if current[index].dir == Asc then Desc else Asc) else current[index].dir;
      next + [Sort(key, dir)]
  }

  ghost predicate DistinctKeys(sorts: seq<Sort>) {
    forall i, j :: 0 <= i < j < |sorts| ==> sorts[i].key != sorts[j].key
  }

  function KeysOf(sorts: seq<Sort>): set<Key> {
    set s | s in sorts :: s.key
  }

  /** Where each sort of `current` stands after a click on `key`. */
  lemma ClickMoves(current: seq<Sort>, key: Key, i: nat)
    requires i < |current| && current[i].key != key
    ensures current[i] in UpdateSortState(current, key)
  {
    var index := IndexOf(current, key);
    var next := UpdateSortState(current, key);
    if index == -1 || i < index {
      assert next[i] == current[i];
    } else {
      assert next[i - 1] == current[i];
    }
  }

  lemma ClickAdds(current: seq<Sort>, key: Key, j: nat)
    requires DistinctKeys(current) && j < |UpdateSortState(current, key)| - 1
    ensures UpdateSortState(current, key)[j] in current && UpdateSortState(current, key)[j].key != key
  {
    var index := IndexOf(current, key);
    var next := UpdateSortState(current, key);
    assert next[j] == if index == -1 || j < index then current[j] else current[j + 1];
  }

  lemma ClickKeepsDistinct(current: seq<Sort>, key: Key)
    requires DistinctKeys(current)
    ensures DistinctKeys(UpdateSortState(current, key))
  {
    var index := IndexOf(current, key);
    var next := UpdateSortState(current, key);
    forall i, j | 0 <= i < j < |next|
      ensures next[i].key != next[j].key
    {
      ClickAdds(current, key, i);
      if j < |next| - 1 {
        assert next[i] == if index == -1 || i < index then current[i] else current[i + 1];
        assert next[j] == if index == -1 || j < index then current[j] else current[j + 1];
      }
    }
  }

  /** A click keeps the keys distinct, drops none, adds at most the clicked one and makes it the leading key. */
  lemma ClickKeepsKeys(current: seq<Sort>, key: Key)
    requires DistinctKeys(current)
    ensures DistinctKeys(UpdateSortState(current, key))
    ensures KeysOf(UpdateSortState(current, key)) == KeysOf(current) + {key}
    ensures var next := UpdateSortState(current, key); next[|next| - 1].key == key
  {
    ClickKeepsDistinct(current, key);
    var next := UpdateSortState(current, key);
    assert next[|next| - 1] in next;
    forall k | k in KeysOf(current) && k != key
      ensures k in KeysOf(next)
    {
      var i :| 0 <= i < |current| && current[i].key == k;
      ClickMoves(current, key, i);
    }
    forall k | k in KeysOf(next) && k != key
      ensures k in KeysOf(current)
    {
      var j :| 0 <= j < |next| && next[j].key == k;
      ClickAdds(current, key, j);
    }
  }

  // ---- main result ----

  /** localeCompare may be any comparison of strings with consistent signs and a transitive "not after". */
  ghost predicate Collates(loc: Locale) {
    && (forall a, b :: loc.compare(a, b) <= 0 <==> loc.compare(b, a) >= 0)
    && (forall a, b, d :: loc.compare(a, b) <= 0 && loc.compare(b, d) <= 0 ==> loc.compare(a, d) <= 0)
  }

  /** Values of one column are missing or of one type. */
  predicate SameColumn(a: Cell, b: Cell) {
    a == Nothing || b == Nothing || (a.Number? && b.Number?) || (a.Flag? && b.Flag?) || (a.Text? && b.Text?)
  }

  lemma ColumnsAreTyped(a: Row, b: Row, key: Key)
    ensures SameColumn(Value(a, key), Value(b, key))
  {
  }

  lemma CompareFlips(loc: Locale, a: Cell, b: Cell)
    requires Collates(loc) && SameColumn(a, b)
    ensures Compare(loc, a, b) <= 0 <==> Compare(loc, b, a) >= 0
  {
  }

  /** Missing values are last and values of one type are ordered, so a column is ordered; mixed types would not be. */
  lemma CompareChains(loc: Locale, a: Cell, b: Cell, d: Cell)
    requires Collates(loc) && SameColumn(a, b) && SameColumn(b, d) && SameColumn(a, d)
    requires Compare(loc, a, b) <= 0 && Compare(loc, b, d) <= 0
    ensures Compare(loc, a, d) <= 0
  {
  }

  lemma ByKeyIsPreorder(loc: Locale, sort: Sort)
    requires Collates(loc)
    ensures Preorder(ByKey(loc, sort))
  {
    var cmp := ByKey(loc, sort);
    forall a, b
      ensures cmp(a, b) <= 0 <==> cmp(b, a) >= 0
    {
      ColumnsAreTyped(a, b, sort.key);
      CompareFlips(loc, Value(a, sort.key), Value(b, sort.key));
      CompareFlips(loc, Value(b, sort.key), Value(a, sort.key));
    }
    forall a, b, d | cmp(a, b) <= 0 && cmp(b, d) <= 0
      ensures cmp(a, d) <= 0
    {
      var x, y, z := Value(a, sort.key), Value(b, sort.key), Value(d, sort.key);
      ColumnsAreTyped(a, b, sort.key);
      ColumnsAreTyped(b, d, sort.key);
      ColumnsAreTyped(a, d, sort.key);
      if sort.dir == Asc {
        CompareChains(loc, x, y, z);
      } else {
        CompareFlips(loc, y, x);
        CompareFlips(loc, z, y);
        CompareFlips(loc, z, x);
        CompareChains(loc, z, y, x);
      }
    }
  }

  lemma ThenIsPreorder(k: Comparator, r: Comparator)
    requires Preorder(k) && Preorder(r)
    ensures Preorder(Then(k, r))
  {
    var t := Then(k, r);
    forall a, b
      ensures t(a, b) <= 0 <==> t(b, a) >= 0
    {
      assert (k(a, b) <= 0 <==> k(b, a) >= 0) && (k(b, a) <= 0 <==> k(a, b) >= 0);
    }
    forall a, b, d | t(a, b) <= 0 && t(b, d) <= 0
      ensures t(a, d) <= 0
    {
      assert k(a, b) <= 0 && k(b, d) <= 0;
      if k(a, d) == 0 {
        assert k(d, a) <= 0;
        assert k(b, a) <= 0 && k(d, b) <= 0;
      }
    }
  }

  lemma {:induction false} BySortsIsPreorder(loc: Locale, sorts: seq<Sort>)
    requires Collates(loc)
    ensures Preorder(BySorts(loc, sorts))
  {
    if sorts != [] {
      BySortsIsPreorder(loc, sorts[..|sorts| - 1]);
      ByKeyIsPreorder(loc, sorts[|sorts| - 1]);
      ThenIsPreorder(ByKey(loc, sorts[|sorts| - 1]), BySorts(loc, sorts[..|sorts| - 1]));
    }
  }

  // ---- what the user sees ----

  /** `a` may stand above `b` in a column sorted upwards: missing values come last, smaller numbers, No before Yes, and texts as
      the browser collates them. */
  predicate Above(loc: Locale, a: Cell, b: Cell) {
    && (a == Nothing ==> b == Nothing)
    && (a.Number? && b.Number? ==> a.n <= b.n)
    && (a.Flag? && b.Flag? ==> (a.b ==> b.b))
    && (a.Text? && b.Text? ==> loc.compare(a.s, b.s) <= 0)
  }

  lemma CompareMeans(loc: Locale, a: Cell, b: Cell)
    requires SameColumn(a, b)
    ensures Compare(loc, a, b) <= 0 <==> Above(loc, a, b)
  {
  }

  /** What each column shows. */
  lemma ValueMeans(row: Row, key: Key)
    ensures key == KVmid ==> Value(row, key) == Number(row.vmid as real)
    ensures key == KUpdated ==> Value(row, key) == Number(if key in row.numbers then row.numbers[key] else 0.0)
    ensures key in {KCpu, KMemory, KDiskIo, KNetwork} ==> Value(row, key) == if key in row.numbers then Number(row.numbers[key]) else Nothing
    ensures key in {KManaged, KQuotaExempt} ==> Value(row, key) == if key in row.flags then Flag(row.flags[key]) else Nothing
    ensures key in {KName, KOwner, KCluster, KNode, KIp, KSg, KSync, KPower} ==>
              Value(row, key) == if key in row.texts then Text(row.texts[key]) else Nothing
  {
  }

  lemma {:induction false} AllTie(loc: Locale, sorts: seq<Sort>, a: Row, b: Row)
    requires forall k :: 0 <= k < |sorts| ==> Compare(loc, Value(a, sorts[k].key), Value(b, sorts[k].key)) == 0
    ensures BySorts(loc, sorts)(a, b) == a.vmid - b.vmid
    decreases |sorts|
  {
    hide Compare, Value;
    if sorts != [] {
      var init := sorts[..|sorts| - 1];
      assert forall k :: 0 <= k < |init| ==> init[k] == sorts[k];
      AllTie(loc, init, a, b);
    }
  }

  /** The leading sort key is the last one clicked: its column runs upwards or downwards over the whole table, and rows that tie
      in every column stand in order of their VMIDs. */
  lemma ScreenIsOrdered(loc: Locale, items: seq<Row>, sorts: seq<Sort>)
    requires Collates(loc) && sorts != []
    ensures var screen := SortVms(loc, items, sorts);
            var sort := sorts[|sorts| - 1];
            forall i, j :: 0 <= i < j < |screen| ==>
              && (if sort.dir == Asc then Above(loc, Value(screen[i], sort.key), Value(screen[j], sort.key))
                  else Above(loc, Value(screen[j], sort.key), Value(screen[i], sort.key)))
              && ((forall k :: 0 <= k < |sorts| ==> Compare(loc, Value(screen[i], sorts[k].key), Value(screen[j], sorts[k].key)) == 0) ==>
                    screen[i].vmid <= screen[j].vmid)
  {
    hide Compare, Value, Above, SortVms;
    var screen := SortVms(loc, items, sorts);
    var sort := sorts[|sorts| - 1];
    BySortsIsPreorder(loc, sorts);
    SortByIsStable(BySorts(loc, sorts), items);
    SortVmsIs(loc, items, sorts);
    forall i, j | 0 <= i < j < |screen|
      ensures if sort.dir == Asc then Above(loc, Value(screen[i], sort.key), Value(screen[j], sort.key))
              else Above(loc, Value(screen[j], sort.key), Value(screen[i], sort.key))
    {
      var a, b := screen[i], screen[j];
      assert BySorts(loc, sorts)(a, b) <= 0 && ByKey(loc, sort)(a, b) <= 0;
      ColumnsAreTyped(a, b, sort.key);
      ColumnsAreTyped(b, a, sort.key);
      CompareFlips(loc, Value(b, sort.key), Value(a, sort.key));
      CompareMeans(loc, Value(a, sort.key), Value(b, sort.key));
      CompareMeans(loc, Value(b, sort.key), Value(a, sort.key));
    }
    forall i, j | 0 <= i < j < |screen|
                  && forall k :: 0 <= k < |sorts| ==> Compare(loc, Value(screen[i], sorts[k].key), Value(screen[j], sorts[k].key)) == 0
      ensures screen[i].vmid <= screen[j].vmid
    {
      AllTie(loc, sorts, screen[i], screen[j]);
    }
  }

  lemma SortVmsIs(loc: Locale, items: seq<Row>, sorts: seq<Sort>)
    ensures sorts != [] ==> SortVms(loc, items, sorts) == SortBy(BySorts(loc, sorts), items)
    ensures SortVms(loc, items, []) == SortVms(loc, items, [Sort(KUpdated, Desc)])
  {
  }

  /** Without any click the rows stand with the latest update first. */
  lemma UnsortedIsNewestFirst(loc: Locale, items: seq<Row>)
    requires Collates(loc)
    ensures var screen := SortVms(loc, items, []);
            forall i, j :: 0 <= i < j < |screen| ==> Value(screen[i], KUpdated).n >= Value(screen[j], KUpdated).n
  {
    hide SortVms;
    SortVmsIs(loc, items, []);
    ScreenIsOrdered(loc, items, [Sort(KUpdated, Desc)]);
  }

  /** A click on a new column sorts it downwards if it shows times or loads and upwards otherwise; a click on the leading column
      turns it round; a click on another one keeps its direction. The other columns keep their order and direction. */
  lemma ClickMeans(current: seq<Sort>, key: Key, i: int)
    requires DistinctKeys(current)
    requires if 0 <= i < |current| then current[i].key == key else i == -1 && forall k :: 0 <= k < |current| ==> current[k].key != key
    ensures var next := UpdateSortState(current, key);
            var first := if key in {KUpdated, KCpu, KMemory, KDiskIo, KNetwork} then Desc else Asc;
            next == if i == -1 then current + [Sort(key, first)]
                    else current[..i] + current[i + 1..]
                         + [Sort(key, if i < |current| - 1 then current[i].dir else if current[i].dir == Asc then Desc else Asc)]
  {
  }

  /** Among rows that tie on `key`, a sort on `key` decides nothing. */
  lemma {:induction false} WithoutKey(loc: Locale, sorts: seq<Sort>, index: nat, a: Row, b: Row)
    requires index < |sorts| && Compare(loc, Value(a, sorts[index].key), Value(b, sorts[index].key)) == 0
    ensures BySorts(loc, sorts)(a, b) == BySorts(loc, Without(sorts, index))(a, b)
    decreases |sorts|
  {
    hide Compare, Value;
    var rest := Without(sorts, index);
    var init := sorts[..|sorts| - 1];
    if index == |sorts| - 1 {
      assert rest == init;
    } else {
      WithoutKey(loc, init, index, a, b);
      assert rest[..|rest| - 1] == Without(init, index);
      assert rest[|rest| - 1] == sorts[|sorts| - 1];
    }
  }

  /** Every header click's full re-sort equals a stable sort of what was on screen by the clicked key in its new direction. */
  lemma ClickIsStableSortOfScreen(loc: Locale, items: seq<Row>, current: seq<Sort>, key: Key)
    requires Collates(loc) && current != []
    ensures var next := UpdateSortState(current, key);
            var screen := SortVms(loc, items, current);
            var clicked := ByKey(loc, next[|next| - 1]);
            SortVms(loc, items, next) == SortBy(clicked, screen) && IsStableSort(clicked, screen, SortVms(loc, items, next))
  {
    var next := UpdateSortState(current, key);
    var clicked := next[|next| - 1];
    var k, r := ByKey(loc, clicked), BySorts(loc, current);
    ByKeyIsPreorder(loc, clicked);
    BySortsIsPreorder(loc, current);
    ThenIsPreorder(k, r);
    SortOfSorted(k, r, items);
    var index := IndexOf(current, key);
    var rest := if index == -1 then current else Without(current, index);
    assert next[..|next| - 1] == rest;
    forall a, b
      ensures Then(k, r)(a, b) == BySorts(loc, next)(a, b)
    {
      if k(a, b) == 0 && index != -1 {
        WithoutKey(loc, current, index, a, b);
      }
    }
    SortAgrees(Then(k, r), BySorts(loc, next), items);
    SortByIsStable(k, SortBy(r, items));
  }

  /** The sort state after a run of clicks. */
  function Clicks(current: seq<Sort>, keys: seq<Key>): seq<Sort>
    decreases |keys|
  {
    if keys == [] then current else Clicks(UpdateSortState(current, keys[0]), keys[1..])
  }

  /** What a user would see if each click only re-sorted the rows on screen by the clicked key. */
  function Screen(loc: Locale, screen: seq<Row>, current: seq<Sort>, keys: seq<Key>): seq<Row>
    decreases |keys|
  {
    if keys == [] then screen
    else
      var next := UpdateSortState(current, keys[0]);
      Screen(loc, SortBy(ByKey(loc, next[|next| - 1]), screen), next, keys[1..])
  }

  /** The one multi-key sort refines the whole sequence of single-key stable sorts, after any run of clicks. */
  lemma {:induction false} ClicksAreStableSorts(loc: Locale, items: seq<Row>, current: seq<Sort>, keys: seq<Key>)
    requires Collates(loc) && current != []
    ensures SortVms(loc, items, Clicks(current, keys)) == Screen(loc, SortVms(loc, items, current), current, keys)
    decreases |keys|
  {
    if keys != [] {
      ClickIsStableSortOfScreen(loc, items, current, keys[0]);
      ClicksAreStableSorts(loc, items, UpdateSortState(current, keys[0]), keys[1..]);
    }
  }

  // ---- the loop and the page state ----

  /** The comparison loop of sortVMs, from the last sort down. */
  method CompareRows(loc: Locale, a: Row, b: Row, sorts: seq<Sort>) returns (result: int)
    ensures result == BySorts(loc, sorts)(a, b)
  {
    var i := |sorts|;
    assert sorts[..i] == sorts;
    while i > 0
      invariant 0 <= i <= |sorts|
      invariant BySorts(loc, sorts)(a, b) == BySorts(loc, sorts[..i])(a, b)
    {
      var sort := sorts[i - 1];
      assert sorts[..i][..i - 1] == sorts[..i - 1];
      result := Compare(loc, Value(a, sort.key), Value(b, sort.key));
      if result != 0 {
        return if sort.dir == Asc then result else -result;
      }
      i := i - 1;
    }
    result := a.vmid - b.vmid;
  }

  /** The part of the page state that the header clicks assign. */
  class PageState {
    var vmSort: seq<Sort>
    var adminVmSort: seq<Sort>

    ghost predicate Valid()
      reads this
    {
      DistinctKeys(vmSort) && vmSort != [] && DistinctKeys(adminVmSort) && adminVmSort != []
    }

    constructor ()
      ensures Valid() && vmSort == [Sort(KName, Asc)] && adminVmSort == [Sort(KVmid, Asc), Sort(KCluster, Asc)]
    {
      vmSort := [Sort(KName, Asc)];
      adminVmSort := [Sort(KVmid, Asc), Sort(KCluster, Asc)];
    }

    method ClickVmHeader(key: Key)
      requires Valid()
      modifies this
      ensures Valid() && vmSort == UpdateSortState(old(vmSort), key) && adminVmSort == old(adminVmSort)
      ensures KeysOf(vmSort) == old(KeysOf(vmSort)) + {key}
    {
      ClickKeepsKeys(vmSort, key);
      vmSort := UpdateSortState(vmSort, key);
    }

    method ClickAdminVmHeader(key: Key)
      requires Valid()
      modifies this
      ensures Valid() && adminVmSort == UpdateSortState(old(adminVmSort), key) && vmSort == old(vmSort)
      ensures KeysOf(adminVmSort) == old(KeysOf(adminVmSort)) + {key}
    {
      ClickKeepsKeys(adminVmSort, key);
      adminVmSort := UpdateSortState(adminVmSort, key);
    }
  }
}
