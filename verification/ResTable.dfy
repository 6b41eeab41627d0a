/**
  The resource tables of datacenter/ResTableAgent.cpp: rows keyed by one or two 32-bit columns
  packed into 64 bits, kept in key order, with a cache of each table's rows as a list.

  A table is the contents of its std::map in iteration order, and what it maps a key to is a
  pointer into the message that a file unpacked to.  The agent keeps one such message for each
  table name; replacing it frees the objects of the one before.  Files, and what unpacking them
  yields, come from the environment.
 */
module ResTable {
  import opened Values

  const TWO32: nat := 0x1_0000_0000
  const TWO64: nat := 0x1_0000_0000_0000_0000

  type Word = w: int | 0 <= w < TWO32

  // A row as an object in memory: its primary-key columns, the rest, and the file whose message it is part of.
  datatype Obj = Obj(pks: seq<Word>, rest: int, file: nat)

  datatype Entry = Entry(key: nat, obj: Obj)

  type Table = seq<Entry>

  // ---------------------------------------------------------------- keys

  /** k <<= 32; k |= v on a uint64_t. */
  function Shift(k: nat, v: Word): (r: nat) {
    (k * TWO32) % TWO64 + v
  }

  function PackFrom(pks: seq<Word>, i: nat, k: nat): (r: nat)
    requires i <= |pks|
    decreases |pks| - i
  {
    if i == |pks| then k else PackFrom(pks, i + 1, Shift(k, pks[i]))
  }

  /** GetResTableEntryKey; more than two columns fail its assertion. */
  function Key(o: Obj): (k: nat)
    requires |o.pks| <= 2
  {
    PackFrom(o.pks, 0, 0)
  }

  lemma {:induction false} KeyOfTwo(o: Obj)
    requires |o.pks| == 2
    ensures Key(o) == o.pks[0] * TWO32 + o.pks[1]
  {
    var k := Shift(0, o.pks[0]);
    assert PackFrom(o.pks, 0, 0) == PackFrom(o.pks, 1, k) == PackFrom(o.pks, 2, Shift(k, o.pks[1]));
  }

  lemma {:induction false} KeyOfOne(o: Obj)
    requires |o.pks| == 1
    ensures Key(o) == o.pks[0]
  {
    assert PackFrom(o.pks, 0, 0) == PackFrom(o.pks, 1, Shift(0, o.pks[0]));
  }

  /** The order of the columns: the first column in which the two differ decides. */
  predicate Before(a: seq<Word>, b: seq<Word>)
    requires |a| == |b|
    decreases |a|
  {
    a != [] && (a[0] < b[0] || (a[0] == b[0] && Before(a[1..], b[1..])))
  }

  /** Keys of rows with the same number of columns compare as the columns do, first column first. */
  lemma {:induction false} KeysAreLexicographic(a: Obj, b: Obj)
    requires |a.pks| == |b.pks| <= 2
    ensures |a.pks| == 1 ==> Key(a) == a.pks[0]
    ensures |a.pks| == 2 ==> Key(a) == (a.pks[0] as int) * 0x1_0000_0000 + a.pks[1]
    ensures Key(a) < Key(b) <==> Before(a.pks, b.pks)
    ensures Key(a) == Key(b) <==> a.pks == b.pks
  {
    if |a.pks| == 1 {
      KeyOfOne(a);
      KeyOfOne(b);
    } else if |a.pks| == 2 {
      KeyOfTwo(a);
      KeyOfTwo(b);
      assert Before(a.pks[1..], b.pks[1..]) <==> a.pks[1] < b.pks[1];
    }
  }

  ghost predicate Usable(rows: seq<Obj>) {
    forall i :: 0 <= i < |rows| ==> |rows[i].pks| <= 2
  }

  // ---------------------------------------------------------------- one table

  ghost predicate Ordered(t: Table) {
    && (forall i, j :: 0 <= i < j < |t| ==> t[i].key < t[j].key)
    && (forall i :: 0 <= i < |t| ==> |t[i].obj.pks| <= 2 && t[i].key == Key(t[i].obj))
  }

  predicate Has(t: Table, k: nat) {
    exists i :: 0 <= i < |t| && t[i].key == k
  }

  /** std::map::lower_bound: the first entry, from i on, whose key is not below k. */
  function LowerIdx(t: Table, k: nat, i: nat): (r: nat)
    requires i <= |t|
    ensures i <= r <= |t|
    ensures forall j :: i <= j < r ==> t[j].key < k
    ensures r < |t| ==> k <= t[r].key
    decreases |t| - i
  {
    if i == |t| || k <= t[i].key then i else LowerIdx(t, k, i + 1)
  }

  function Put(t: Table, o: Obj): (r: Table)
    requires |o.pks| <= 2
  {
    var p := LowerIdx(t, Key(o), 0);
    t[..p] + [Entry(Key(o), o)] + t[p..]
  }

  function Objs(t: Table): (r: seq<Obj>)
    ensures |r| == |t|
    ensures forall i :: 0 <= i < |t| ==> r[i] == t[i].obj
  {
    seq(|t|, i requires 0 <= i < |t| => t[i].obj)
  }

  lemma {:induction false} PutKeeps(t: Table, o: Obj)
    requires Ordered(t) && |o.pks| <= 2 && !Has(t, Key(o))
    ensures Ordered(Put(t, o))
  {
    var p := LowerIdx(t, Key(o), 0);
    var r := Put(t, o);
    assert p < |t| ==> t[p].key != Key(o);
    forall i, j | 0 <= i < j < |r|
      ensures r[i].key < r[j].key
    {
      var i' := if i < p then i else i - 1;
      var j' := if j < p then j else j - 1;
      if i != p && j != p {
        assert r[i] == t[i'] && r[j] == t[j'];
      } else if i == p && p < |t| {
        assert r[j] == t[j'];
      }
    }
  }

  lemma {:induction false} PutHas(t: Table, o: Obj, k: nat)
    requires |o.pks| <= 2
    ensures Has(Put(t, o), k) <==> Has(t, k) || k == Key(o)
  {
    var p := LowerIdx(t, Key(o), 0);
    var r := Put(t, o);
    assert r[p].key == Key(o);
    if Has(t, k) {
      var i :| 0 <= i < |t| && t[i].key == k;
      assert r[if i < p then i else i + 1] == t[i];
    }
  }

  // ---------------------------------------------------------------- lookups and the list

  function ObjAt(t: Table, i: nat): (r: Option<Obj>) {
    if i < |t| then Some(t[i].obj) else None
  }

  /** Find. */
  function Find(t: Table, probe: Obj): (r: Option<Obj>)
    requires |probe.pks| <= 2
  {
    var i := LowerIdx(t, Key(probe), 0);
    if i < |t| && t[i].key == Key(probe) then Some(t[i].obj) else None
  }

  /** LowerBound. */
  function LowerBound(t: Table, probe: Obj): (r: Option<Obj>)
    requires |probe.pks| <= 2
  {
    ObjAt(t, LowerIdx(t, Key(probe), 0))
  }

  /** UpperBound: the first entry whose key is above the probe's. */
  function UpperBound(t: Table, probe: Obj): (r: Option<Obj>)
    requires |probe.pks| <= 2
  {
    ObjAt(t, LowerIdx(t, Key(probe) + 1, 0))
  }

  // `r` is the first object of the list whose own key is k or above.
  ghost predicate FirstFrom(list: seq<Obj>, k: nat, r: Option<Obj>)
    requires Usable(list)
  {
    if r.None? then forall i :: 0 <= i < |list| ==> Key(list[i]) < k
    else exists i :: 0 <= i < |list| && list[i] == r.value && k <= Key(list[i]) && AllBelow(list, i, k)
  }

  ghost predicate AllBelow(list: seq<Obj>, n: nat, k: nat)
    requires Usable(list) && n <= |list|
  {
    forall j :: 0 <= j < n ==> Key(list[j]) < k
  }

  // `r` is the object of the list whose own key is k, and there is one at most.
  ghost predicate OnlyWith(list: seq<Obj>, k: nat, r: Option<Obj>)
    requires Usable(list)
  {
    if r.None? then forall i :: 0 <= i < |list| ==> Key(list[i]) != k
    else exists i :: 0 <= i < |list| && list[i] == r.value && Key(list[i]) == k
                     && forall j :: 0 <= j < |list| && j != i ==> Key(list[j]) != k
  }

  /** The three lookups are linear scans of the table's list by the rows' own keys. */
  lemma {:induction false} LookupsScanTheList(t: Table, probe: Obj)
    requires Ordered(t) && |probe.pks| <= 2
    ensures Usable(Objs(t))
    ensures OnlyWith(Objs(t), Key(probe), Find(t, probe))
    ensures FirstFrom(Objs(t), Key(probe), LowerBound(t, probe))
    ensures FirstFrom(Objs(t), Key(probe) + 1, UpperBound(t, probe))
  {
  }

  // The rows all have w key columns, as rows of one message type do.
  ghost predicate Alike(list: seq<Obj>, w: nat) {
    w <= 2 && forall i :: 0 <= i < |list| ==> |list[i].pks| == w
  }

  // The rows stand strictly in the order of their columns.
  ghost predicate Sorted(list: seq<Obj>, w: nat)
    requires Alike(list, w)
  {
    forall i, j :: 0 <= i < j < |list| ==> Before(list[i].pks, list[j].pks)
  }

  // `r` is the row with these columns, or there is none.
  ghost predicate RowWith(list: seq<Obj>, pks: seq<Word>, r: Option<Obj>) {
    if r.None? then forall i :: 0 <= i < |list| ==> list[i].pks != pks else r.value in list && r.value.pks == pks
  }

  // `r` is the first row not before these columns; with `above`, the first one behind them.
  ghost predicate FirstRow(list: seq<Obj>, pks: seq<Word>, above: bool, r: Option<Obj>)
    requires Alike(list, |pks|)
  {
    exists n :: 0 <= n <= |list| && r == (if n < |list| then Some(list[n]) else None) && CutsAt(list, pks, above, n)
  }

  ghost predicate CutsAt(list: seq<Obj>, pks: seq<Word>, above: bool, n: nat)
    requires Alike(list, |pks|)
  {
    forall i :: 0 <= i < |list| ==>
      (i < n <==> Before(list[i].pks, pks) || (above && list[i].pks == pks))
  }

  /** For rows of one type: the list is sorted by columns, and the lookups find rows by columns. */
  lemma {:induction false} LookupsByColumns(t: Table, probe: Obj)
    requires Ordered(t) && |probe.pks| <= 2 && Alike(Objs(t), |probe.pks|)
    ensures Sorted(Objs(t), |probe.pks|)
    ensures RowWith(Objs(t), probe.pks, Find(t, probe))
    ensures FirstRow(Objs(t), probe.pks, false, LowerBound(t, probe))
    ensures FirstRow(Objs(t), probe.pks, true, UpperBound(t, probe))
  {
    var list := Objs(t);
    forall i, j | 0 <= i < j < |list|
      ensures Before(list[i].pks, list[j].pks)
    {
      assert t[i].key < t[j].key;
      KeysAreLexicographic(list[i], list[j]);
    }
    forall i | 0 <= i < |t|
      ensures t[i].key < Key(probe) <==> Before(list[i].pks, probe.pks)
      ensures t[i].key == Key(probe) <==> list[i].pks == probe.pks
    {
      KeysAreLexicographic(list[i], probe);
    }
    RowFound(t, probe);
    CutFound(t, probe, Key(probe), false);
    CutFound(t, probe, Key(probe) + 1, true);
  }

  // The table's keys compare with the probe's as the columns do.
  ghost predicate ByColumns(t: Table, probe: Obj)
    requires |probe.pks| <= 2 && Alike(Objs(t), |probe.pks|)
  {
    forall i :: 0 <= i < |t| ==>
      && (t[i].key < Key(probe) <==> Before(Objs(t)[i].pks, probe.pks))
      && (t[i].key == Key(probe) <==> Objs(t)[i].pks == probe.pks)
  }

  lemma {:induction false} RowFound(t: Table, probe: Obj)
    requires Ordered(t) && |probe.pks| <= 2 && Alike(Objs(t), |probe.pks|) && ByColumns(t, probe)
    ensures RowWith(Objs(t), probe.pks, Find(t, probe))
  {
    var n := LowerIdx(t, Key(probe), 0);
    if n < |t| && t[n].key == Key(probe) {
      assert Objs(t)[n] in Objs(t);
    } else {
      assert forall i :: n < i < |t| ==> t[n].key < t[i].key;
    }
  }

  lemma {:induction false} CutFound(t: Table, probe: Obj, k: nat, above: bool)
    requires Ordered(t) && |probe.pks| <= 2 && Alike(Objs(t), |probe.pks|) && ByColumns(t, probe)
    requires k == Key(probe) + if above then 1 else 0
    ensures FirstRow(Objs(t), probe.pks, above, ObjAt(t, LowerIdx(t, k, 0)))
  {
    var n := LowerIdx(t, k, 0);
    assert forall i :: n < i < |t| ==> t[n].key < t[i].key;
    assert CutsAt(Objs(t), probe.pks, above, n);
  }

  // ---------------------------------------------------------------- loading

  datatype Named = Named(name: string, table: Table)

  // m_mpAllNameTables, m_iLoadResNum, m_mpRawMetaResTable (by file number), and whether loading goes on.
  datatype Loaded = Loaded(tables: seq<Named>, count: nat, owners: map<string, nat>, ok: bool)

  const NOTHING: Loaded := Loaded([], 0, map[], true)

  // `good`: the size is positive and the unpacking succeeds.
  datatype File = File(name: string, good: bool, rows: seq<Obj>)

  function IndexOf(ts: seq<Named>, name: string, i: nat): (r: nat)
    requires i <= |ts|
    ensures i <= r <= |ts| && (r < |ts| ==> ts[r].name == name)
    ensures forall k :: i <= k < r ==> ts[k].name != name
    decreases |ts| - i
  {
    if i == |ts| || ts[i].name == name then i else IndexOf(ts, name, i + 1)
  }

  function TableOf(ts: seq<Named>, name: string): (t: Table) {
    var i := IndexOf(ts, name, 0);
    if i < |ts| then ts[i].table else []
  }

  /** m_mpAllNameTables[name], which creates the table. */
  function Open(ts: seq<Named>, name: string): (r: seq<Named>)
    ensures IndexOf(r, name, 0) < |r|
  {
    if IndexOf(ts, name, 0) < |ts| then ts else
      IndexOfNew(ts, name, 0);
      ts + [Named(name, [])]
  }

  lemma {:induction false} IndexOfNew(ts: seq<Named>, name: string, i: nat)
    requires i <= |ts| && IndexOf(ts, name, i) == |ts|
    ensures IndexOf(ts + [Named(name, [])], name, i) == |ts|
    decreases |ts| - i
  {
    if i < |ts| { IndexOfNew(ts, name, i + 1); }
  }

  /** The inner loop of ReLoad, from row i on: it stops at a repeated key. */
  function LoadRows(l: Loaded, at: nat, rows: seq<Obj>, i: nat): (r: Loaded)
    requires at < |l.tables| && i <= |rows| && Usable(rows)
    ensures |r.tables| == |l.tables| && r.owners == l.owners
    decreases |rows| - i
  {
    if i == |rows| then l
    else if Has(l.tables[at].table, Key(rows[i])) then l.(ok := false)
    else
      var t := Put(l.tables[at].table, rows[i]);
      LoadRows(l.(tables := l.tables[at := l.tables[at].(table := t)], count := l.count + 1), at, rows, i + 1)
  }

  // The rows are usable and part of the message of file i.
  ghost predicate RowsOf(rows: seq<Obj>, i: nat) {
    Usable(rows) && forall k :: 0 <= k < |rows| ==> rows[k].file == i
  }

  ghost predicate AllUsable(fs: seq<File>) {
    forall i :: 0 <= i < |fs| ==> RowsOf(fs[i].rows, i)
  }

  /** File number i: its message becomes the one kept for the table, then its rows are stored. */
  function LoadFile(l: Loaded, f: File, i: nat): (r: Loaded)
    requires Usable(f.rows)
  {
    if !f.good then l.(ok := false)
    else
      var ts := Open(l.tables, f.name);
      LoadRows(l.(tables := ts, owners := l.owners[f.name := i]), IndexOf(ts, f.name, 0), f.rows, 0)
  }

  /** The outer loop of ReLoad, which returns at the first failure. */
  function LoadFiles(l: Loaded, fs: seq<File>, i: nat): (r: Loaded)
    requires AllUsable(fs) && i <= |fs|
    decreases |fs| - i
  {
    if i == |fs| || !l.ok then l else LoadFiles(LoadFile(l, fs[i], i), fs, i + 1)
  }

  function Sizes(ts: seq<Named>): (n: nat)
    decreases |ts|
  {
    if ts == [] then 0 else Sizes(ts[..|ts| - 1]) + |ts[|ts| - 1].table|
  }

  lemma {:induction false} SizesOfUpdate(ts: seq<Named>, at: nat, n: Named)
    requires at < |ts|
    ensures Sizes(ts[at := n]) == Sizes(ts) - |ts[at].table| + |n.table|
    decreases |ts|
  {
    var last := |ts| - 1;
    if at < last {
      SizesOfUpdate(ts[..last], at, n);
      assert ts[at := n][..last] == ts[..last][at := n];
    } else {
      assert ts[at := n][..last] == ts[..last];
    }
  }

  ghost predicate TablesOk(l: Loaded) {
    && (forall i :: 0 <= i < |l.tables| ==> Ordered(l.tables[i].table))
    && (forall i, j :: 0 <= i < j < |l.tables| ==> l.tables[i].name != l.tables[j].name)
    && l.count == Sizes(l.tables)
  }

  // No key of the rows from i on is repeated, among them or with the table.
  ghost predicate FreshRows(t: Table, rows: seq<Obj>, i: nat)
    requires Usable(rows)
  {
    && (forall j, k :: i <= j < k < |rows| ==> Key(rows[j]) != Key(rows[k]))
    && (forall j :: i <= j < |rows| ==> !Has(t, Key(rows[j])))
  }

  ghost predicate FromRows(rows: seq<Obj>, i: nat, e: Entry)
    requires Usable(rows)
  {
    exists j :: i <= j < |rows| && e == Entry(Key(rows[j]), rows[j])
  }

  // What a load leaves alone: the names, and every table but `at`.
  ghost predicate OnlyTable(l: Loaded, r: Loaded, at: nat) {
    && |r.tables| == |l.tables|
    && (forall j :: 0 <= j < |l.tables| ==> r.tables[j].name == l.tables[j].name)
    && (forall j :: 0 <= j < |l.tables| && j != at ==> r.tables[j] == l.tables[j])
  }

  function StoreRow(l: Loaded, at: nat, o: Obj): (r: Loaded)
    requires at < |l.tables| && |o.pks| <= 2
  {
    l.(tables := l.tables[at := l.tables[at].(table := Put(l.tables[at].table, o))], count := l.count + 1)
  }

  lemma {:induction false} StoreRowKeeps(l: Loaded, at: nat, o: Obj)
    requires TablesOk(l) && at < |l.tables| && |o.pks| <= 2 && !Has(l.tables[at].table, Key(o))
    ensures TablesOk(StoreRow(l, at, o)) && OnlyTable(l, StoreRow(l, at, o), at)
  {
    PutKeeps(l.tables[at].table, o);
    SizesOfUpdate(l.tables, at, l.tables[at].(table := Put(l.tables[at].table, o)));
  }

  lemma {:induction false} LoadRowsKeeps(l: Loaded, at: nat, rows: seq<Obj>, i: nat)
    requires TablesOk(l) && at < |l.tables| && i <= |rows| && Usable(rows)
    ensures TablesOk(LoadRows(l, at, rows, i)) && OnlyTable(l, LoadRows(l, at, rows, i), at)
    decreases |rows| - i
  {
    if i < |rows| && !Has(l.tables[at].table, Key(rows[i])) {
      StoreRowKeeps(l, at, rows[i]);
      LoadRowsKeeps(StoreRow(l, at, rows[i]), at, rows, i + 1);
    }
  }

  lemma {:induction false} FreshStep(t: Table, rows: seq<Obj>, i: nat)
    requires Usable(rows) && i < |rows|
    ensures FreshRows(t, rows, i) <==> !Has(t, Key(rows[i])) && FreshRows(Put(t, rows[i]), rows, i + 1)
  {
    forall k: nat
      ensures Has(Put(t, rows[i]), k) <==> Has(t, k) || k == Key(rows[i])
    {
      PutHas(t, rows[i], k);
    }
  }

  /** Loading rows succeeds exactly when no key is repeated, and then the table has gained exactly the rows. */
  lemma {:induction false} LoadRowsExactlyWhen(l: Loaded, at: nat, rows: seq<Obj>, i: nat, e: Entry)
    requires l.ok && at < |l.tables| && i <= |rows| && Usable(rows)
    ensures var r := LoadRows(l, at, rows, i);
            && (r.ok <==> FreshRows(l.tables[at].table, rows, i))
            && (r.ok ==> (e in r.tables[at].table <==> e in l.tables[at].table || FromRows(rows, i, e)))
    decreases |rows| - i
  {
    if i < |rows| {
      FreshStep(l.tables[at].table, rows, i);
      if !Has(l.tables[at].table, Key(rows[i])) {
        LoadRowsExactlyWhen(StoreRow(l, at, rows[i]), at, rows, i + 1, e);
        assert FromRows(rows, i, e) <==> e == Entry(Key(rows[i]), rows[i]) || FromRows(rows, i + 1, e);
      }
    }
  }

  // ---------------------------------------------------------------- whole files

  lemma {:induction false} IndexIs(ts: seq<Named>, name: string, i: nat, k: nat)
    requires i <= k < |ts| && ts[k].name == name && forall j :: i <= j < k ==> ts[j].name != name
    ensures IndexOf(ts, name, i) == k
  {
  }

  lemma {:induction false} OpenKeeps(l: Loaded, name: string)
    requires TablesOk(l)
    ensures TablesOk(l.(tables := Open(l.tables, name)))
  {
    var ts := Open(l.tables, name);
    if IndexOf(l.tables, name, 0) == |l.tables| { assert ts[..|ts| - 1] == l.tables; }
  }

  lemma {:induction false} OpenKeepsTable(ts: seq<Named>, name: string, other: string)
    ensures TableOf(Open(ts, name), other) == TableOf(ts, other)
  {
    var k := IndexOf(ts, other, 0);
    if IndexOf(ts, name, 0) == |ts| {
      var r := ts + [Named(name, [])];
      if k < |ts| {
        IndexIs(r, other, 0, k);
      } else if other == name {
        IndexIs(r, other, 0, |ts|);
      } else {
      }
    }
  }

  lemma {:induction false} OnlyTableElsewhere(l: Loaded, r: Loaded, at: nat, name: string)
    requires TablesOk(l) && OnlyTable(l, r, at) && at < |l.tables|
    ensures name != l.tables[at].name ==> TableOf(r.tables, name) == TableOf(l.tables, name)
    ensures TableOf(r.tables, l.tables[at].name) == r.tables[at].table
    ensures TableOf(l.tables, l.tables[at].name) == l.tables[at].table
  {
    IndexIs(r.tables, l.tables[at].name, 0, at);
    IndexIs(l.tables, l.tables[at].name, 0, at);
    var k := IndexOf(l.tables, name, 0);
    if k < |l.tables| { IndexIs(r.tables, name, 0, k); }
  }

  /** A file loads exactly when it is good and repeats no key; then its table gains exactly its rows. */
  lemma {:induction false} LoadFileExactlyWhen(l: Loaded, f: File, i: nat, name: string, e: Entry)
    requires TablesOk(l) && l.ok && Usable(f.rows)
    ensures var r := LoadFile(l, f, i);
            && TablesOk(r)
            && (r.ok <==> f.good && FreshRows(TableOf(l.tables, f.name), f.rows, 0))
            && (r.ok ==> (e in TableOf(r.tables, name) <==>
                          e in TableOf(l.tables, name) || (name == f.name && FromRows(f.rows, 0, e))))
  {
    if f.good {
      OpenKeeps(l, f.name);
      OpenKeepsTable(l.tables, f.name, name);
      OpenKeepsTable(l.tables, f.name, f.name);
      var o := l.(tables := Open(l.tables, f.name), owners := l.owners[f.name := i]);
      var at := IndexOf(o.tables, f.name, 0);
      LoadRowsKeeps(o, at, f.rows, 0);
      LoadRowsExactlyWhen(o, at, f.rows, 0, e);
      OnlyTableElsewhere(o, LoadRows(o, at, f.rows, 0), at, name);
    }
  }

  ghost predicate FromFiles(fs: seq<File>, i: nat, name: string, e: Entry)
    requires AllUsable(fs) && i <= |fs|
  {
    exists j :: 0 <= j < i && fs[j].name == name && FromRows(fs[j].rows, 0, e)
  }

  // The tables hold the rows of the first i files.
  ghost predicate Holds(ts: seq<Named>, fs: seq<File>, i: nat)
    requires AllUsable(fs) && i <= |fs|
  {
    forall name: string, e: Entry :: e in TableOf(ts, name) <==> FromFiles(fs, i, name, e)
  }

  ghost predicate Apart(a: seq<Obj>, b: seq<Obj>)
    requires Usable(a) && Usable(b)
  {
    forall x, y :: 0 <= x < |a| && 0 <= y < |b| ==> Key(a[x]) != Key(b[y])
  }

  /** File j is good, its keys are distinct, and no earlier file of the same table has one of them. */
  ghost predicate CleanAt(fs: seq<File>, j: nat)
    requires AllUsable(fs) && j < |fs|
  {
    && fs[j].good && FreshRows([], fs[j].rows, 0)
    && forall i :: 0 <= i < j && fs[i].name == fs[j].name ==> Apart(fs[i].rows, fs[j].rows)
  }

  lemma {:induction false} FreshIsClean(ts: seq<Named>, fs: seq<File>, i: nat)
    requires AllUsable(fs) && i < |fs| && Holds(ts, fs, i)
    ensures fs[i].good && FreshRows(TableOf(ts, fs[i].name), fs[i].rows, 0) <==> CleanAt(fs, i)
  {
    var t, rows := TableOf(ts, fs[i].name), fs[i].rows;
    if FreshRows(t, rows, 0) {
      forall j, x, y | 0 <= j < i && fs[j].name == fs[i].name && 0 <= x < |fs[j].rows| && 0 <= y < |rows|
        ensures Key(fs[j].rows[x]) != Key(rows[y])
      {
        var e := Entry(Key(fs[j].rows[x]), fs[j].rows[x]);
        assert FromRows(fs[j].rows, 0, e);
        assert FromFiles(fs, i, fs[i].name, e);
        assert e in t;
        assert Has(t, e.key);
      }
    }
    if CleanAt(fs, i) {
      forall y | 0 <= y < |rows|
        ensures !Has(t, Key(rows[y]))
      {
        forall x | 0 <= x < |t|
          ensures t[x].key != Key(rows[y])
        {
          assert t[x] in t;
        }
      }
    }
  }

  lemma {:induction false} HoldsNext(l: Loaded, fs: seq<File>, i: nat)
    requires AllUsable(fs) && i < |fs| && TablesOk(l) && l.ok && Holds(l.tables, fs, i)
    ensures TablesOk(LoadFile(l, fs[i], i)) && (LoadFile(l, fs[i], i).ok <==> CleanAt(fs, i))
    ensures LoadFile(l, fs[i], i).ok ==> Holds(LoadFile(l, fs[i], i).tables, fs, i + 1)
  {
    FreshIsClean(l.tables, fs, i);
    LoadFileExactlyWhen(l, fs[i], i, "", Entry(0, Obj([], 0, 0)));
    forall name: string, e: Entry | LoadFile(l, fs[i], i).ok
      ensures e in TableOf(LoadFile(l, fs[i], i).tables, name) <==> FromFiles(fs, i + 1, name, e)
    {
      LoadFileExactlyWhen(l, fs[i], i, name, e);
      assert FromFiles(fs, i + 1, name, e)
        <==> FromFiles(fs, i, name, e) || (fs[i].name == name && FromRows(fs[i].rows, 0, e));
    }
  }

  lemma {:induction false} LoadFilesExactlyWhen(l: Loaded, fs: seq<File>, i: nat)
    requires AllUsable(fs) && i <= |fs| && TablesOk(l) && l.ok && Holds(l.tables, fs, i)
    ensures var r := LoadFiles(l, fs, i);
            && TablesOk(r) && (r.ok <==> forall j :: i <= j < |fs| ==> CleanAt(fs, j))
            && (r.ok ==> Holds(r.tables, fs, |fs|))
    decreases |fs| - i
  {
    if i < |fs| {
      HoldsNext(l, fs, i);
      var l1 := LoadFile(l, fs[i], i);
      if l1.ok { LoadFilesExactlyWhen(l1, fs, i + 1); }
    }
  }

  /**
    ReLoad succeeds if and only if every file is good and no table gets a key twice.  Then the
    tables hold pointers to exactly the files' rows, each table in key order, and the row count is
    the sum of the table sizes.  Which of these rows still exist, RowsAreAliveExactlyWhen says.
   */
  lemma {:induction false} ReloadExactlyWhen(fs: seq<File>)
    requires AllUsable(fs)
    ensures var r := LoadFiles(NOTHING, fs, 0);
            && (r.ok <==> forall j :: 0 <= j < |fs| ==> CleanAt(fs, j))
            && TablesOk(r) && (r.ok ==> Holds(r.tables, fs, |fs|))
  {
    LoadFilesExactlyWhen(NOTHING, fs, 0);
  }

  // Every table's rows have the columns of its message type.
  ghost predicate Typed(fs: seq<File>, width: string -> nat) {
    forall i :: 0 <= i < |fs| ==> Alike(fs[i].rows, width(fs[i].name))
  }

  // File j is good, and no row repeats the columns of another row of it or of an earlier file of its table.
  ghost predicate CleanColumns(fs: seq<File>, j: nat)
    requires j < |fs|
  {
    && fs[j].good
    && (forall x, y :: 0 <= x < y < |fs[j].rows| ==> fs[j].rows[x].pks != fs[j].rows[y].pks)
    && (forall i :: 0 <= i < j && fs[i].name == fs[j].name ==> ApartColumns(fs[i].rows, fs[j].rows))
  }

  ghost predicate ApartColumns(a: seq<Obj>, b: seq<Obj>) {
    forall x, y :: 0 <= x < |a| && 0 <= y < |b| ==> a[x].pks != b[y].pks
  }

  lemma {:induction false} ApartByColumns(a: seq<Obj>, b: seq<Obj>, w: nat)
    requires Alike(a, w) && Alike(b, w)
    ensures Apart(a, b) <==> ApartColumns(a, b)
  {
    forall x, y | 0 <= x < |a| && 0 <= y < |b|
      ensures Key(a[x]) == Key(b[y]) <==> a[x].pks == b[y].pks
    {
      KeysAreLexicographic(a[x], b[y]);
    }
  }

  lemma {:induction false} FreshByColumns(rows: seq<Obj>, w: nat)
    requires Alike(rows, w)
    ensures FreshRows([], rows, 0) <==> forall x, y :: 0 <= x < y < |rows| ==> rows[x].pks != rows[y].pks
  {
    forall x, y | 0 <= x < y < |rows|
      ensures Key(rows[x]) == Key(rows[y]) <==> rows[x].pks == rows[y].pks
    {
      KeysAreLexicographic(rows[x], rows[y]);
    }
  }

  lemma {:induction false} CleanByColumns(fs: seq<File>, width: string -> nat, j: nat)
    requires AllUsable(fs) && Typed(fs, width) && j < |fs|
    ensures CleanAt(fs, j) <==> CleanColumns(fs, j)
  {
    FreshByColumns(fs[j].rows, width(fs[j].name));
    forall i | 0 <= i < j && fs[i].name == fs[j].name
      ensures Apart(fs[i].rows, fs[j].rows) <==> ApartColumns(fs[i].rows, fs[j].rows)
    {
      ApartByColumns(fs[i].rows, fs[j].rows, width(fs[j].name));
    }
  }

  /**
    For files whose rows have the columns of their table's type: ReLoad succeeds if and only if
    every file is good and no table gets the same columns twice.
   */
  lemma {:induction false} ReloadByColumnsExactlyWhen(fs: seq<File>, width: string -> nat)
    requires AllUsable(fs) && Typed(fs, width)
    ensures LoadFiles(NOTHING, fs, 0).ok <==> forall j :: 0 <= j < |fs| ==> CleanColumns(fs, j)
  {
    ReloadExactlyWhen(fs);
    forall j | 0 <= j < |fs|
      ensures CleanAt(fs, j) <==> CleanColumns(fs, j)
    {
      CleanByColumns(fs, width, j);
    }
  }

  // ---------------------------------------------------------------- freed rows

  /** The message that holds the object is still the one kept for the table. */
  predicate Alive(l: Loaded, name: string, o: Obj) {
    name in l.owners && l.owners[name] == o.file
  }

  ghost predicate Backed(l: Loaded, name: string) {
    forall e: Entry :: e in TableOf(l.tables, name) ==> Alive(l, name, e.obj)
  }

  /** How many files, from i on, had their message kept before ReLoad returned. */
  ghost function Adopted(fs: seq<File>, i: nat): (n: nat)
    requires AllUsable(fs) && i <= |fs|
    ensures i <= n <= |fs|
    decreases |fs| - i
  {
    if i == |fs| then i
    else if CleanAt(fs, i) then Adopted(fs, i + 1)
    else if fs[i].good then i + 1
    else i
  }

  /** Of the first n files, one of the table that has rows is followed by another one of it. */
  ghost predicate Replaced(fs: seq<File>, n: nat, name: string)
    requires n <= |fs|
  {
    exists i, j :: 0 <= i < j < n && fs[i].name == name && fs[j].name == name && fs[i].rows != []
  }

  ghost predicate HasFile(fs: seq<File>, n: nat, name: string)
    requires n <= |fs|
  {
    exists j :: 0 <= j < n && fs[j].name == name
  }

  // The message kept for a table is that of its last file among the first n.
  ghost predicate OwnersOk(l: Loaded, fs: seq<File>, n: nat)
    requires n <= |fs|
  {
    && (forall name :: name in l.owners <==> HasFile(fs, n, name))
    && (forall name :: name in l.owners ==>
          l.owners[name] < n && fs[l.owners[name]].name == name
          && forall k :: l.owners[name] < k < n ==> fs[k].name != name)
  }

  lemma {:induction false} OwnersNext(l: Loaded, fs: seq<File>, i: nat)
    requires AllUsable(fs) && i < |fs| && OwnersOk(l, fs, i) && fs[i].good
    ensures OwnersOk(LoadFile(l, fs[i], i), fs, i + 1)
  {
    forall name
      ensures HasFile(fs, i + 1, name) <==> HasFile(fs, i, name) || fs[i].name == name
    {
      if HasFile(fs, i, name) {
        var j :| 0 <= j < i && fs[j].name == name;
        assert 0 <= j < i + 1 && fs[j].name == name;
      }
    }
  }

  // The table holds at least the rows of the first i files, and at most those of the first n.
  ghost predicate Between(l: Loaded, fs: seq<File>, i: nat, n: nat, name: string)
    requires AllUsable(fs) && i <= n <= |fs|
  {
    && (forall e :: FromFiles(fs, i, name, e) ==> e in TableOf(l.tables, name))
    && (forall e :: e in TableOf(l.tables, name) ==> FromFiles(fs, n, name, e))
  }

  lemma {:induction false} BackedWhen(l: Loaded, fs: seq<File>, i: nat, n: nat, name: string)
    requires AllUsable(fs) && i <= n <= |fs| && n <= i + 1 && OwnersOk(l, fs, n) && Between(l, fs, i, n, name)
    ensures Backed(l, name) <==> !Replaced(fs, n, name)
  {
    if Replaced(fs, n, name) {
      var a, b :| 0 <= a < b < n && fs[a].name == name && fs[b].name == name && fs[a].rows != [];
      var o := fs[a].rows[0];
      assert RowsOf(fs[a].rows, a);
      assert FromRows(fs[a].rows, 0, Entry(Key(o), o));
      assert FromFiles(fs, i, name, Entry(Key(o), o));
      assert !Alive(l, name, o);
    } else {
      forall e | e in TableOf(l.tables, name)
        ensures Alive(l, name, e.obj)
      {
      }
    }
  }

  lemma {:induction false} LoadRowsBetween(l: Loaded, at: nat, rows: seq<Obj>, i: nat, e: Entry)
    requires at < |l.tables| && i <= |rows| && Usable(rows)
    ensures var r := LoadRows(l, at, rows, i);
            && (e in l.tables[at].table ==> e in r.tables[at].table)
            && (e in r.tables[at].table ==> e in l.tables[at].table || FromRows(rows, i, e))
    decreases |rows| - i
  {
    if i < |rows| && !Has(l.tables[at].table, Key(rows[i])) {
      LoadRowsBetween(StoreRow(l, at, rows[i]), at, rows, i + 1, e);
    }
  }

  lemma {:induction false} LoadFileBetween(l: Loaded, f: File, i: nat, name: string, e: Entry)
    requires TablesOk(l) && Usable(f.rows)
    ensures var r := LoadFile(l, f, i);
            && (e in TableOf(l.tables, name) ==> e in TableOf(r.tables, name))
            && (e in TableOf(r.tables, name) ==>
                e in TableOf(l.tables, name) || (name == f.name && FromRows(f.rows, 0, e)))
  {
    if f.good {
      OpenKeeps(l, f.name);
      OpenKeepsTable(l.tables, f.name, name);
      var o := l.(tables := Open(l.tables, f.name), owners := l.owners[f.name := i]);
      var at := IndexOf(o.tables, f.name, 0);
      LoadRowsKeeps(o, at, f.rows, 0);
      LoadRowsBetween(o, at, f.rows, 0, e);
      OnlyTableElsewhere(o, LoadRows(o, at, f.rows, 0), at, name);
    }
  }

  lemma {:induction false} BetweenNext(l: Loaded, fs: seq<File>, i: nat, name: string)
    requires AllUsable(fs) && i < |fs| && TablesOk(l) && Holds(l.tables, fs, i)
    ensures Between(LoadFile(l, fs[i], i), fs, i, i + 1, name)
  {
    var r := LoadFile(l, fs[i], i);
    forall e
      ensures FromFiles(fs, i, name, e) ==> e in TableOf(r.tables, name)
      ensures e in TableOf(r.tables, name) ==> FromFiles(fs, i + 1, name, e)
    {
      LoadFileBetween(l, fs[i], i, name, e);
      assert FromFiles(fs, i, name, e) ==> FromFiles(fs, i + 1, name, e);
    }
  }

  lemma {:induction false} LoadFilesBacked(l: Loaded, fs: seq<File>, i: nat, name: string)
    requires AllUsable(fs) && i <= |fs| && TablesOk(l) && l.ok && Holds(l.tables, fs, i) && OwnersOk(l, fs, i)
    ensures Backed(LoadFiles(l, fs, i), name) <==> !Replaced(fs, Adopted(fs, i), name)
    decreases |fs| - i
  {
    if i == |fs| {
      BackedWhen(l, fs, i, i, name);
    } else {
      var l1 := LoadFile(l, fs[i], i);
      HoldsNext(l, fs, i);
      if l1.ok {
        OwnersNext(l, fs, i);
        LoadFilesBacked(l1, fs, i + 1, name);
      } else if fs[i].good {
        OwnersNext(l, fs, i);
        BetweenNext(l, fs, i, name);
        BackedWhen(l1, fs, i, i + 1, name);
      } else {
        BackedWhen(l1, fs, i, i, name);
      }
    }
  }

  /**
    After a reload, complete or not, every pointer in a table leads to an object that still exists
    if and only if no file of the table that has rows was followed by another file of the table:
    the second one's message replaces the first one's, whose rows stay in the table.
   */
  lemma {:induction false} RowsAreAliveExactlyWhen(fs: seq<File>, name: string)
    requires AllUsable(fs)
    ensures Backed(LoadFiles(NOTHING, fs, 0), name) <==> !Replaced(fs, Adopted(fs, 0), name)
    ensures LoadFiles(NOTHING, fs, 0).ok ==> Adopted(fs, 0) == |fs|
  {
    LoadFilesBacked(NOTHING, fs, 0, name);
    LoadFilesExactlyWhen(NOTHING, fs, 0);
    if LoadFiles(NOTHING, fs, 0).ok { AllAdopted(fs, 0); }
  }

  lemma {:induction false} AllAdopted(fs: seq<File>, i: nat)
    requires AllUsable(fs) && i <= |fs| && forall j :: i <= j < |fs| ==> CleanAt(fs, j)
    ensures Adopted(fs, i) == |fs|
    decreases |fs| - i
  {
    if i < |fs| { AllAdopted(fs, i + 1); }
  }

  /** The smallest case: two files of one table with different keys load, and the first one's row is freed. */
  lemma {:induction false} SecondFileFreesTheFirst(x: Obj, y: Obj)
    requires x == Obj([1], x.rest, 0) && y == Obj([2], y.rest, 1)
    ensures var l := LoadFiles(NOTHING, [File("task", true, [x]), File("task", true, [y])], 0);
            l.ok && Entry(Key(x), x) in TableOf(l.tables, "task") && !Alive(l, "task", x) && Alive(l, "task", y)
  {
    var fs := [File("task", true, [x]), File("task", true, [y])];
    assert PackFrom(x.pks, 0, 0) == PackFrom(x.pks, 1, 1) && PackFrom(y.pks, 0, 0) == PackFrom(y.pks, 1, 2);
    assert CleanAt(fs, 0) && CleanAt(fs, 1);
    LoadFilesExactlyWhen(NOTHING, fs, 0);
    assert FromRows(fs[0].rows, 0, Entry(Key(x), x));
    assert FromFiles(fs, 2, "task", Entry(Key(x), x));
    var l1 := LoadFile(NOTHING, fs[0], 0);
    HoldsNext(NOTHING, fs, 0);
    OwnersNext(NOTHING, fs, 0);
    OwnersNext(l1, fs, 1);
    assert LoadFiles(NOTHING, fs, 0) == LoadFiles(l1, fs, 1);
    HoldsNext(l1, fs, 1);
    assert LoadFiles(l1, fs, 1) == LoadFile(l1, fs[1], 1);
  }

  // ---------------------------------------------------------------- the cache

  datatype Agent = Agent(loaded: Loaded, cache: map<string, seq<Obj>>)

  const NEW_AGENT: Agent := Agent(NOTHING, map[])

  // A reload may fail before it clears anything, or before it opens the first file.
  datatype Step = SReload(listed: bool, buffered: bool, fs: seq<File>) | SGetAll(name: string)

  function Reload(a: Agent, listed: bool, buffered: bool, fs: seq<File>): (r: Agent)
    requires AllUsable(fs)
  {
    if !listed then a
    else if !buffered then Agent(NOTHING.(ok := false), map[])
    else Agent(LoadFiles(NOTHING, fs, 0), map[])
  }

  /** GetAll: the list, from the cache when it is there. */
  function GetAll(a: Agent, name: string): (r: (Agent, seq<Obj>)) {
    if name in a.cache then (a, a.cache[name])
    else
      var list := Objs(TableOf(a.loaded.tables, name));
      (a.(cache := a.cache[name := list]), list)
  }

  // What the last reload that cleared the tables had to load, starting from `fs`.
  ghost function LastFiles(steps: seq<Step>, fs: seq<File>): (r: seq<File>)
    requires AllStepsUsable(steps) && AllUsable(fs)
    ensures AllUsable(r)
    decreases |steps|
  {
    if steps == [] then fs
    else if steps[0].SReload? && steps[0].listed then
      LastFiles(steps[1..], if steps[0].buffered then steps[0].fs else [])
    else LastFiles(steps[1..], fs)
  }

  ghost predicate CacheOk(a: Agent, fs: seq<File>)
    requires AllUsable(fs)
  {
    && TablesOk(a.loaded) && a.loaded == LoadFiles(NOTHING, fs, 0).(ok := a.loaded.ok)
    && forall name :: name in a.cache ==> a.cache[name] == Objs(TableOf(a.loaded.tables, name))
  }

  ghost predicate AllStepsUsable(steps: seq<Step>) {
    forall i :: 0 <= i < |steps| && steps[i].SReload? ==> AllUsable(steps[i].fs)
  }

  ghost function Run(a: Agent, steps: seq<Step>): (r: Agent)
    requires AllStepsUsable(steps)
    decreases |steps|
  {
    if steps == [] then a
    else
      match steps[0]
      case SReload(listed, buffered, fs) => Run(Reload(a, listed, buffered, fs), steps[1..])
      case SGetAll(name) => Run(GetAll(a, name).0, steps[1..])
  }

  lemma {:induction false} RunKeepsCache(a: Agent, steps: seq<Step>, last: seq<File>)
    requires AllUsable(last) && CacheOk(a, last) && AllStepsUsable(steps)
    ensures CacheOk(Run(a, steps), LastFiles(steps, last))
    decreases |steps|
  {
    if steps != [] {
      match steps[0]
      case SReload(listed, buffered, fs) =>
        ReloadExactlyWhen(fs);
        RunKeepsCache(Reload(a, listed, buffered, fs), steps[1..],
                      if !listed then last else if buffered then fs else []);
      case SGetAll(name) =>
        RunKeepsCache(GetAll(a, name).0, steps[1..], last);
    }
  }

  /**
    After any sequence of queries and reloads, failed ones included, GetAll is the table as it is
    now, in key order, and the three lookups agree with a scan of it.  Its rows all still exist if
    and only if the last reload replaced no message of the table that had rows.
   */
  lemma {:induction false} GetAllIsNeverStale(steps: seq<Step>, name: string, probe: Obj)
    requires AllStepsUsable(steps) && |probe.pks| <= 2
    ensures var a := Run(NEW_AGENT, steps);
            var (t, list, fs) := (TableOf(a.loaded.tables, name), GetAll(a, name).1, LastFiles(steps, []));
            && list == Objs(t) && Ordered(t) && a.loaded.count == Sizes(a.loaded.tables)
            && Usable(list) && OnlyWith(list, Key(probe), Find(t, probe))
            && FirstFrom(list, Key(probe), LowerBound(t, probe))
            && FirstFrom(list, Key(probe) + 1, UpperBound(t, probe))
            && ((forall o :: o in list ==> Alive(a.loaded, name, o)) <==> !Replaced(fs, Adopted(fs, 0), name))
  {
    RunKeepsCache(NEW_AGENT, steps, []);
    var a, fs := Run(NEW_AGENT, steps), LastFiles(steps, []);
    LookupsScanTheList(TableOf(a.loaded.tables, name), probe);
    RowsAreAliveExactlyWhen(fs, name);
    AliveInList(a.loaded, name);
  }

  ghost predicate StepsTyped(steps: seq<Step>, width: string -> nat) {
    forall i :: 0 <= i < |steps| && steps[i].SReload? ==> Typed(steps[i].fs, width)
  }

  lemma {:induction false} LastFilesTyped(steps: seq<Step>, fs: seq<File>, width: string -> nat)
    requires AllStepsUsable(steps) && AllUsable(fs) && StepsTyped(steps, width) && Typed(fs, width)
    ensures Typed(LastFiles(steps, fs), width)
    decreases |steps|
  {
    if steps != [] {
      LastFilesTyped(steps[1..],
                     if steps[0].SReload? && steps[0].listed then if steps[0].buffered then steps[0].fs else [] else fs,
                     width);
    }
  }

  lemma {:induction false} TableOfRows(fs: seq<File>, width: string -> nat, i: nat, l: Loaded, name: string)
    requires AllUsable(fs) && Typed(fs, width) && i <= |fs| && TablesOk(l) && width(name) <= 2
    requires Alike(Objs(TableOf(l.tables, name)), width(name))
    ensures Alike(Objs(TableOf(LoadFiles(l, fs, i).tables, name)), width(name))
    decreases |fs| - i
  {
    if i < |fs| && l.ok {
      LoadFileExactlyWhen(l, fs[i], i, name, Entry(0, Obj([], 0, 0)));
      FileKeepsWidth(l, fs[i], i, name, width(name));
      TableOfRows(fs, width, i + 1, LoadFile(l, fs[i], i), name);
    }
  }

  lemma {:induction false} FileKeepsWidth(l: Loaded, f: File, i: nat, name: string, w: nat)
    requires TablesOk(l) && Usable(f.rows)
    requires Alike(Objs(TableOf(l.tables, name)), w) && (f.name == name ==> Alike(f.rows, w))
    ensures Alike(Objs(TableOf(LoadFile(l, f, i).tables, name)), w)
  {
    var t := TableOf(LoadFile(l, f, i).tables, name);
    forall k | 0 <= k < |t|
      ensures |Objs(t)[k].pks| == w
    {
      LoadFileBetween(l, f, i, name, t[k]);
      var t0 := TableOf(l.tables, name);
      if t[k] in t0 {
        var j :| 0 <= j < |t0| && t0[j] == t[k];
        assert Objs(t0)[j] == t[k].obj;
      }
    }
  }

  /**
    After any sequence of queries and reloads of files whose rows have the columns of their table's
    type: the list is sorted by columns; Find returns the row with the probe's columns or says there
    is none, LowerBound and UpperBound the first row not before them and the first one behind them.
   */
  lemma {:induction false} LookupsFindByColumns(steps: seq<Step>, width: string -> nat, name: string, probe: Obj)
    requires AllStepsUsable(steps) && StepsTyped(steps, width) && |probe.pks| == width(name) <= 2
    ensures var a := Run(NEW_AGENT, steps);
            var (t, list) := (TableOf(a.loaded.tables, name), GetAll(a, name).1);
            && Alike(list, |probe.pks|) && Sorted(list, |probe.pks|)
            && RowWith(list, probe.pks, Find(t, probe))
            && FirstRow(list, probe.pks, false, LowerBound(t, probe))
            && FirstRow(list, probe.pks, true, UpperBound(t, probe))
  {
    RunKeepsCache(NEW_AGENT, steps, []);
    GetAllIsNeverStale(steps, name, probe);
    LastFilesTyped(steps, [], width);
    TableOfRows(LastFiles(steps, []), width, 0, NOTHING, name);
    LookupsByColumns(TableOf(Run(NEW_AGENT, steps).loaded.tables, name), probe);
  }

  lemma {:induction false} AliveInList(l: Loaded, name: string)
    ensures (forall o :: o in Objs(TableOf(l.tables, name)) ==> Alive(l, name, o)) <==> Backed(l, name)
  {
    var t := TableOf(l.tables, name);
    forall e | e in t
      ensures e.obj in Objs(t)
    {
      var i :| 0 <= i < |t| && t[i] == e;
      assert Objs(t)[i] == e.obj;
    }
  }
}
