/** ResTableAgent as an object: tables, row count and cache are filled in place by loops. */
module ResTableAgent {
  import opened ResTable

  class Tables {
    var tables: seq<Named>             // m_mpAllNameTables
    var count: nat                     // m_iLoadResNum
    var owners: map<string, nat>       // m_mpRawMetaResTable
    var cache: map<string, seq<Obj>>   // m_mpNameCacheTable

    ghost function View(ok: bool): Agent
      reads this
    {
      Agent(Loaded(tables, count, owners, ok), cache)
    }

    constructor ()
      ensures View(true) == NEW_AGENT
    {
      tables, count, owners, cache := [], 0, map[], map[];
    }

    method FindTable(name: string) returns (at: nat)
      ensures at == IndexOf(tables, name, 0)
    {
      at := 0;
      while at < |tables|
        invariant at <= |tables| && IndexOf(tables, name, 0) == IndexOf(tables, name, at)
      {
        if tables[at].name == name { return; }
        at := at + 1;
      }
    }

    method LoadTable(at: nat, rows: seq<Obj>) returns (ok: bool)
      requires at < |tables| && Usable(rows)
      modifies this`tables, this`count
      ensures Loaded(tables, count, owners, ok) == LoadRows(Loaded(old(tables), old(count), owners, true), at, rows, 0)
    {
      for j := 0 to |rows|
        invariant at < |tables|
        invariant LoadRows(Loaded(old(tables), old(count), owners, true), at, rows, 0)
               == LoadRows(Loaded(tables, count, owners, true), at, rows, j)
      {
        var k := Key(rows[j]);
        if Has(tables[at].table, k) { return false; }
        var p := LowerIdx(tables[at].table, k, 0);
        var t := tables[at].table;
        tables := tables[at := tables[at].(table := t[..p] + [Entry(k, rows[j])] + t[p..])];
        count := count + 1;
      }
      ok := true;
    }

    /** A row of a table still exists, in the state this leaves, as RowsAreAliveExactlyWhen says. */
    method ReLoad(listed: bool, buffered: bool, fs: seq<File>) returns (ret: int)
      requires AllUsable(fs)
      modifies this
      ensures ret == 0 || ret == -1
      ensures !listed ==> ret == -1 && View(true) == old(View(true))
      ensures listed ==> View(ret == 0) == Reload(old(View(true)), true, buffered, fs)
      ensures listed && buffered ==>
                forall name :: Backed(View(ret == 0).loaded, name) <==> !Replaced(fs, Adopted(fs, 0), name)
    {
      forall name: string
        ensures Backed(LoadFiles(NOTHING, fs, 0), name) <==> !Replaced(fs, Adopted(fs, 0), name)
      {
        RowsAreAliveExactlyWhen(fs, name);
      }
      if !listed { return -1; }
      tables, count, owners, cache := [], 0, map[], map[];
      if !buffered { return -1; }
      for i := 0 to |fs|
        invariant cache == map[]
        invariant LoadFiles(NOTHING, fs, 0) == LoadFiles(Loaded(tables, count, owners, true), fs, i)
      {
        if !fs[i].good { return -1; }
        ghost var l := Loaded(tables, count, owners, true);
        owners := owners[fs[i].name := i];
        var at := FindTable(fs[i].name);
        if at == |tables| { tables := tables + [Named(fs[i].name, [])]; }
        assert tables == Open(l.tables, fs[i].name);
        IndexIs(tables, fs[i].name, 0, at);
        var ok := LoadTable(at, fs[i].rows);
        assert Loaded(tables, count, owners, ok) == LoadFile(l, fs[i], i);
        if !ok { return -1; }
      }
      ret := 0;
    }

    method GetAllRows(name: string) returns (list: seq<Obj>)
      modifies this`cache
      ensures forall ok :: View(ok) == GetAll(old(View(ok)), name).0 && list == GetAll(old(View(ok)), name).1
    {
      if name in cache { return cache[name]; }
      list := [];
      var at := FindTable(name);
      if at < |tables| {
        var t := tables[at].table;
        for i := 0 to |t|
          invariant list == Objs(t)[..i]
        {
          list := list + [t[i].obj];
        }
        assert list == Objs(t);
      }
      cache := cache[name := list];
    }
  }
}
