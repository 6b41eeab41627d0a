/**
  The shared-memory centre of datacenter/ShareMemoryCenter.cpp: a block that outlives the
  process, with a directory of named modules in its header and their bytes behind it, handed
  out by moving `dataLength` up.  A process registers its modules, attaches to the block or
  creates it, and adds the modules the directory does not know yet.

  `Block` is what survives a restart.  Attaching with a larger size is an event of the system:
  the old bytes stay and the bytes behind them are anything.
 */
module SharedMemory {
  import opened Values

  const MAX_MODULES: nat := 256
  const NAME_SIZE: nat := 32
  // magic 4, reserve 16, dataLength 8, dataOffset 4, modulesCount 2, and 256 packed entries of 49
  const HEADER: nat := 12578

  datatype Reg = Reg(name: string, size: nat)

  datatype Module = Module(name: string, inited: bool, offset: nat, size: nat)

  // data[k] is the byte at offset HEADER + k
  datatype Block = Block(magic: bool, dataLength: nat, count: nat, modules: seq<Module>, data: seq<Byte>)

  // One call of a notifier's OnAttach.
  datatype Attach = Attach(name: string, offset: nat, size: nat, inited: bool)

  datatype Booted = Failed | Aborted | Ready(b: Block, calls: seq<Attach>)

  // ---------------------------------------------------------------- weights of registrations

  function SizeOf(r: Reg): (n: nat) { r.size }

  function One(r: Reg): (n: nat) { 1 }

  function Weigh(rs: seq<Reg>, w: Reg -> nat): (n: nat)
    decreases |rs|
  {
    if rs == [] then 0 else Weigh(rs[..|rs| - 1], w) + w(rs[|rs| - 1])
  }

  /** m_zTotalSize after Init has added the header. */
  function TotalSize(regs: seq<Reg>): (n: nat) {
    HEADER + Weigh(regs, SizeOf)
  }

  ghost predicate Distinct(rs: seq<Reg>) {
    forall i, j :: 0 <= i < j < |rs| ==> rs[i].name != rs[j].name
  }

  // ---------------------------------------------------------------- the operations

  /** FindReg. */
  function FindReg(rs: seq<Reg>, name: string, i: nat): (r: nat)
    requires i <= |rs|
    ensures i <= r <= |rs| && (r < |rs| ==> rs[r].name == name)
    ensures forall k :: i <= k < r ==> rs[k].name != name
    decreases |rs| - i
  {
    if i == |rs| || rs[i].name == name then i else FindReg(rs, name, i + 1)
  }

  /** FindModule. */
  predicate HasModule(b: Block, name: string)
    requires b.count <= |b.modules|
  {
    exists i :: 0 <= i < b.count && b.modules[i].name == name
  }

  /** STRNCPY into szName. */
  function Truncate(name: string): (r: string) {
    if |name| < NAME_SIZE then name else name[..NAME_SIZE - 1]
  }

  function Zeros(n: nat): (r: seq<Byte>) { seq(n, _ => 0) }

  /** The space behind `dataLength` exists as far as AddModule may hand it out. */
  ghost predicate Roomy(b: Block, total: nat) {
    && |b.modules| == MAX_MODULES && b.count <= MAX_MODULES
    && HEADER <= b.dataLength <= HEADER + |b.data| && HEADER + |b.data| == total
  }

  /** AddModule; a failure leaves the block as it was. */
  function AddModule(regs: seq<Reg>, total: nat, b: Block, name: string): (r: Block)
    requires Roomy(b, total)
    ensures Roomy(r, total)
  {
    var k := FindReg(regs, name, 0);
    if k == |regs| || total < regs[k].size + b.dataLength || MAX_MODULES <= b.count then b
    else
      var at := b.dataLength - HEADER;
      var size := regs[k].size;
      var m := b.modules[b.count].(name := Truncate(regs[k].name), offset := b.dataLength, size := size);
      b.(modules := b.modules[b.count := m],
         data := b.data[..at] + Zeros(size) + b.data[at + size..],
         dataLength := b.dataLength + size,
         count := b.count + 1)
  }

  /** AppendRegModules, from registration i on. */
  function Append(regs: seq<Reg>, total: nat, b: Block, i: nat): (r: Block)
    requires Roomy(b, total) && i <= |regs|
    ensures Roomy(r, total)
    decreases |regs| - i
  {
    if i == |regs| then b
    else Append(regs, total, if HasModule(b, regs[i].name) then b else AddModule(regs, total, b, regs[i].name), i + 1)
  }

  /** AttachAllModules, from entry i on; every notifier accepts.  It fails at an entry that is not registered. */
  function AttachAll(regs: seq<Reg>, b: Block, i: nat): (r: Booted)
    requires i <= b.count <= |b.modules|
    ensures !r.Aborted?
    decreases b.count - i
  {
    if i == b.count then Ready(b, [])
    else
      var m := b.modules[i];
      if FindReg(regs, m.name, 0) == |regs| then Failed
      else
        var rest := AttachAll(regs, b.(modules := b.modules[i := m.(inited := true)]), i + 1);
        if rest.Ready? then Ready(rest.b, [Attach(m.name, m.offset, m.size, m.inited)] + rest.calls) else rest
  }

  function EmptyBlock(total: nat): (b: Block)
    requires HEADER <= total
  {
    Block(true, HEADER, 0, seq(MAX_MODULES, _ => Module("", false, 0, 0)), Zeros(total - HEADER))
  }

  /** Init when there is no block yet. */
  function Create(regs: seq<Reg>): (r: Booted) {
    var b := Append(regs, TotalSize(regs), EmptyBlock(TotalSize(regs)), 0);
    AttachAll(regs, b, 0)
  }

  /** Init on the block `b` as the system attached it; Aborted is its assert failing. */
  function Restart(regs: seq<Reg>, b: Block): (r: Booted)
    requires Roomy(b, TotalSize(regs))
  {
    var total := TotalSize(regs);
    if !b.magic then Failed
    else if b.dataLength == total then AttachAll(regs, b, 0)
    else if !(b.dataLength < total && b.count < |regs|) then Aborted
    else AttachAll(regs, Append(regs, total, b, 0), 0)
  }

  /** The block attached with a larger size. */
  function Grown(b: Block, extra: seq<Byte>): (r: Block) {
    b.(data := b.data + extra)
  }

  // ---------------------------------------------------------------- the directory

  function Dir(b: Block): (r: seq<Reg>)
    requires b.count <= |b.modules|
    ensures |r| == b.count
    ensures forall i :: 0 <= i < b.count ==> r[i] == Reg(b.modules[i].name, b.modules[i].size)
  {
    seq(b.count, i requires 0 <= i < b.count => Reg(b.modules[i].name, b.modules[i].size))
  }

  /** Each module begins where the ones before it end, and `dataLength` is the end of the last. */
  ghost predicate Laid(b: Block, total: nat) {
    && b.magic && Roomy(b, total) && Distinct(Dir(b))
    && (forall i :: 0 <= i < b.count ==> b.modules[i].offset == HEADER + Weigh(Dir(b)[..i], SizeOf))
    && b.dataLength == HEADER + Weigh(Dir(b), SizeOf)
    && (forall i :: b.count <= i < MAX_MODULES ==> !b.modules[i].inited)
  }

  /** The directory entries are registered with their sizes. */
  ghost predicate Known(dir: seq<Reg>, regs: seq<Reg>) {
    forall i :: 0 <= i < |dir| ==> dir[i] in regs
  }

  ghost predicate Usable(regs: seq<Reg>) {
    && |regs| <= 256 && Distinct(regs)
    && forall i :: 0 <= i < |regs| ==> |regs[i].name| < 32
  }

  predicate Named(rs: seq<Reg>, name: string) {
    exists i :: 0 <= i < |rs| && rs[i].name == name
  }

  /** The registrations from i on that the directory lacks, in order. */
  function Missing(regs: seq<Reg>, dir: seq<Reg>, i: nat): (r: seq<Reg>)
    requires i <= |regs|
    decreases |regs| - i
  {
    if i == |regs| then []
    else (if Named(dir, regs[i].name) then [] else [regs[i]]) + Missing(regs, dir, i + 1)
  }

  lemma {:induction false} WeighConcat(a: seq<Reg>, b: seq<Reg>, w: Reg -> nat)
    ensures Weigh(a + b, w) == Weigh(a, w) + Weigh(b, w)
    decreases |b|
  {
    if b == [] {
      assert a + b == a;
    } else {
      assert (a + b)[..|a + b| - 1] == a + b[..|b| - 1];
      WeighConcat(a, b[..|b| - 1], w);
    }
  }

  /** The weight of the registrations that the directory has. */
  function Shared(regs: seq<Reg>, dir: seq<Reg>, w: Reg -> nat): (n: nat)
    decreases |regs|
  {
    if regs == [] then 0
    else
      var last := regs[|regs| - 1];
      Shared(regs[..|regs| - 1], dir, w) + if Named(dir, last.name) then w(last) else 0
  }

  lemma {:induction false} SharedAndMissing(regs: seq<Reg>, dir: seq<Reg>, w: Reg -> nat)
    ensures Weigh(regs, w) == Shared(regs, dir, w) + Weigh(Missing(regs, dir, 0), w)
    decreases |regs|
  {
    if regs != [] {
      var n := |regs| - 1;
      SharedAndMissing(regs[..n], dir, w);
      MissingLast(regs, dir, 0);
      var tail := if Named(dir, regs[n].name) then [] else [regs[n]];
      WeighConcat(Missing(regs[..n], dir, 0), tail, w);
      if tail != [] { assert tail[..0] == []; }
    }
  }

  lemma {:induction false} MissingLast(regs: seq<Reg>, dir: seq<Reg>, i: nat)
    requires i < |regs|
    ensures var n := |regs| - 1;
            Missing(regs, dir, i) == Missing(regs[..n], dir, i) + if Named(dir, regs[n].name) then [] else [regs[n]]
    decreases |regs| - i
  {
    if i < |regs| - 1 { MissingLast(regs, dir, i + 1); }
  }

  /** One more directory entry shares exactly its own weight more. */
  lemma {:induction false} SharedOneMore(regs: seq<Reg>, dir: seq<Reg>, r: Reg, w: Reg -> nat)
    requires Distinct(regs) && !Named(dir, r.name) && (r in regs || !Named(regs, r.name))
    ensures Shared(regs, dir + [r], w) == Shared(regs, dir, w) + if r in regs then w(r) else 0
    decreases |regs|
  {
    if regs != [] {
      var n := |regs| - 1;
      assert regs[n].name == r.name ==> regs[n] == r;
      assert r in regs[..n] || !Named(regs[..n], r.name);
      SharedOneMore(regs[..n], dir, r, w);
      NamedOneMore(dir, r, regs[n].name);
    }
  }

  lemma {:induction false} NamedOneMore(dir: seq<Reg>, r: Reg, name: string)
    ensures Named(dir + [r], name) <==> Named(dir, name) || r.name == name
  {
    if Named(dir, name) {
      var i :| 0 <= i < |dir| && dir[i].name == name;
      assert (dir + [r])[i].name == name;
    }
    if r.name == name { assert (dir + [r])[|dir|].name == name; }
  }

  lemma {:induction false} SharedIsDir(regs: seq<Reg>, dir: seq<Reg>, w: Reg -> nat)
    requires Distinct(regs) && Distinct(dir) && Known(dir, regs)
    ensures Shared(regs, dir, w) == Weigh(dir, w)
    decreases |dir|
  {
    if dir == [] {
      NothingShared(regs, w);
    } else {
      var n := |dir| - 1;
      SharedIsDir(regs, dir[..n], w);
      assert dir == dir[..n] + [dir[n]];
      SharedOneMore(regs, dir[..n], dir[n], w);
    }
  }

  lemma {:induction false} NothingShared(regs: seq<Reg>, w: Reg -> nat)
    ensures Shared(regs, [], w) == 0
    decreases |regs|
  {
    if regs != [] { NothingShared(regs[..|regs| - 1], w); }
  }

  /** What the directory has and what it lacks make up the registrations, by size and by number. */
  lemma {:induction false} DirAndMissing(regs: seq<Reg>, dir: seq<Reg>)
    requires Distinct(regs) && Distinct(dir) && Known(dir, regs)
    ensures Weigh(regs, SizeOf) == Weigh(dir, SizeOf) + Weigh(Missing(regs, dir, 0), SizeOf)
    ensures |regs| == |dir| + |Missing(regs, dir, 0)|
  {
    SharedIsDir(regs, dir, SizeOf);
    SharedAndMissing(regs, dir, SizeOf);
    SharedIsDir(regs, dir, One);
    SharedAndMissing(regs, dir, One);
    Ones(regs);
    Ones(dir);
    Ones(Missing(regs, dir, 0));
  }

  lemma {:induction false} Ones(rs: seq<Reg>)
    ensures Weigh(rs, One) == |rs|
    decreases |rs|
  {
    if rs != [] { Ones(rs[..|rs| - 1]); }
  }

  // ---------------------------------------------------------------- adding modules

  lemma {:induction false} HasIsNamed(b: Block, name: string)
    requires b.count <= |b.modules|
    ensures HasModule(b, name) <==> Named(Dir(b), name)
  {
    if HasModule(b, name) {
      var i :| 0 <= i < b.count && b.modules[i].name == name;
      assert Dir(b)[i].name == name;
    }
    if Named(Dir(b), name) {
      var i :| 0 <= i < |Dir(b)| && Dir(b)[i].name == name;
      assert b.modules[i].name == name;
    }
  }

  // r is b with further modules, in space that was free and is zeroed.
  ghost predicate Extends(b: Block, r: Block) {
    && b.count <= r.count <= |b.modules| && |r.modules| == |b.modules| && r.modules[..b.count] == b.modules[..b.count]
    && |r.data| == |b.data| && HEADER <= b.dataLength <= r.dataLength <= HEADER + |b.data|
    && r.data[..b.dataLength - HEADER] == b.data[..b.dataLength - HEADER]
    && (forall k :: b.dataLength - HEADER <= k < r.dataLength - HEADER ==> r.data[k] == 0)
    && (forall i :: 0 <= i < |b.modules| ==> r.modules[i].inited == b.modules[i].inited)
  }

  lemma {:induction false} AddExtends(regs: seq<Reg>, total: nat, b: Block, k: nat)
    requires Roomy(b, total) && Usable(regs) && k < |regs| && b.count < 256
    requires regs[k].size + b.dataLength <= total
    ensures var r := AddModule(regs, total, b, regs[k].name);
            && Extends(b, r) && r.magic == b.magic && r.count == b.count + 1
            && r.dataLength == b.dataLength + regs[k].size
            && r.modules[b.count] == Module(regs[k].name, b.modules[b.count].inited, b.dataLength, regs[k].size)
            && Dir(r) == Dir(b) + [regs[k]]
  {
    assert FindReg(regs, regs[k].name, 0) == k;
    var r := AddModule(regs, total, b, regs[k].name);
    assert Dir(r) == Dir(b) + [regs[k]];
  }

  lemma {:induction false} AddLays(regs: seq<Reg>, total: nat, b: Block, k: nat)
    requires Laid(b, total) && Usable(regs) && k < |regs| && b.count < 256
    requires regs[k].size + b.dataLength <= total && !Named(Dir(b), regs[k].name)
    ensures Laid(AddModule(regs, total, b, regs[k].name), total)
  {
    AddExtends(regs, total, b, k);
    var r := AddModule(regs, total, b, regs[k].name);
    WeighConcat(Dir(b), [regs[k]], SizeOf);
    assert [regs[k]][..0] == [];
    forall i | 0 <= i < r.count
      ensures r.modules[i].offset == HEADER + Weigh(Dir(r)[..i], SizeOf)
    {
      OffsetAfterAdd(b, r, regs[k], i);
    }
  }

  lemma {:induction false} OffsetAfterAdd(b: Block, r: Block, reg: Reg, i: nat)
    requires b.count < |b.modules| && r.count == b.count + 1 && Extends(b, r) && Dir(r) == Dir(b) + [reg] && i < r.count
    requires i < b.count ==> b.modules[i].offset == HEADER + Weigh(Dir(b)[..i], SizeOf)
    requires r.modules[b.count].offset == HEADER + Weigh(Dir(b), SizeOf)
    ensures r.modules[i].offset == HEADER + Weigh(Dir(r)[..i], SizeOf)
  {
    if i < b.count {
      assert r.modules[i] == r.modules[..b.count][i] == b.modules[i];
      assert Dir(r)[..i] == Dir(b)[..i];
    } else {
      assert Dir(r)[..i] == Dir(b);
    }
  }

  lemma {:induction false} MissingUnaffected(regs: seq<Reg>, dir: seq<Reg>, k: nat, i: nat)
    requires Distinct(regs) && k < i <= |regs|
    ensures Missing(regs, dir + [regs[k]], i) == Missing(regs, dir, i)
    decreases |regs| - i
  {
    if i < |regs| {
      NamedOneMore(dir, regs[k], regs[i].name);
      MissingUnaffected(regs, dir, k, i + 1);
    }
  }

  lemma {:induction false} ExtendsTransitive(a: Block, b: Block, c: Block)
    requires Extends(a, b) && Extends(b, c)
    ensures Extends(a, c)
  {
    assert c.modules[..a.count] == c.modules[..b.count][..a.count];
    assert b.modules[..a.count] == b.modules[..b.count][..a.count];
    var n, m := a.dataLength - HEADER, b.dataLength - HEADER;
    assert c.data[..n] == c.data[..m][..n] && b.data[..n] == b.data[..m][..n];
    assert forall k :: 0 <= k < m ==> c.data[k] == c.data[..m][k] == b.data[k];
  }

  // r is b with the modules `more` laid out behind it.
  ghost predicate Grew(b: Block, r: Block, more: seq<Reg>, total: nat) {
    Laid(r, total) && b.count <= |b.modules| && Extends(b, r) && Dir(r) == Dir(b) + more
  }

  lemma {:induction false} GrewTwice(a: Block, b: Block, c: Block, x: seq<Reg>, y: seq<Reg>, total: nat)
    requires Grew(a, b, x, total) && Grew(b, c, y, total)
    ensures Grew(a, c, x + y, total)
  {
    ExtendsTransitive(a, b, c);
    ConcatAssoc(Dir(a), x, y);
  }

  lemma {:induction false} ConcatAssoc(a: seq<Reg>, b: seq<Reg>, c: seq<Reg>)
    ensures a + (b + c) == (a + b) + c
  {
  }

  lemma {:induction false} AddGrows(regs: seq<Reg>, total: nat, b: Block, k: nat)
    requires Laid(b, total) && Usable(regs) && k < |regs| && b.count < 256
    requires regs[k].size + b.dataLength <= total && !Named(Dir(b), regs[k].name)
    ensures Grew(b, AddModule(regs, total, b, regs[k].name), [regs[k]], total)
    ensures AddModule(regs, total, b, regs[k].name).dataLength == b.dataLength + regs[k].size
  {
    AddExtends(regs, total, b, k);
    AddLays(regs, total, b, k);
  }

  lemma {:induction false} AppendGrows(regs: seq<Reg>, total: nat, b: Block, i: nat, more: seq<Reg>)
    requires Laid(b, total) && Usable(regs) && i <= |regs| && more == Missing(regs, Dir(b), i)
    requires b.dataLength + Weigh(more, SizeOf) <= total && b.count + |more| <= 256
    ensures Grew(b, Append(regs, total, b, i), more, total)
    decreases |regs| - i
  {
    if i == |regs| {
    } else {
      HasIsNamed(b, regs[i].name);
      var rest := Missing(regs, Dir(b), i + 1);
      if HasModule(b, regs[i].name) {
        assert more == rest;
        AppendGrows(regs, total, b, i + 1, rest);
      } else {
        assert more == [regs[i]] + rest;
        WeighCons(regs[i], rest);
        AddGrows(regs, total, b, i);
        MissingUnaffected(regs, Dir(b), i, i + 1);
        AppendAfterAdd(regs, total, b, AddModule(regs, total, b, regs[i].name), i, [regs[i]], rest);
      }
    }
  }

  lemma {:induction false} WeighCons(r: Reg, rest: seq<Reg>)
    ensures Weigh([r] + rest, SizeOf) == r.size + Weigh(rest, SizeOf)
  {
    WeighConcat([r], rest, SizeOf);
    assert [r][..0] == [];
  }

  lemma {:induction false} AppendAfterAdd(
    regs: seq<Reg>, total: nat, b: Block, b1: Block, i: nat, added: seq<Reg>, rest: seq<Reg>)
    requires Usable(regs) && i < |regs| && Grew(b, b1, added, total) && rest == Missing(regs, Dir(b1), i + 1)
    requires b1.dataLength + Weigh(rest, SizeOf) <= total && b1.count + |rest| <= 256
    ensures Grew(b, Append(regs, total, b1, i + 1), added + rest, total)
    decreases |regs| - i, 0
  {
    AppendGrows(regs, total, b1, i + 1, rest);
    GrewTwice(b, b1, Append(regs, total, b1, i + 1), added, rest, total);
  }

  // ---------------------------------------------------------------- attaching

  /** What the notifiers are told, entry by entry. */
  function CallsFrom(b: Block, i: nat): (r: seq<Attach>)
    requires i <= b.count <= |b.modules|
    decreases b.count - i
  {
    if i == b.count then []
    else
      var m := b.modules[i];
      [Attach(m.name, m.offset, m.size, m.inited)] + CallsFrom(b, i + 1)
  }

  /** The directory with the entries from i on marked as attached. */
  function Marked(b: Block, i: nat): (r: Block)
    requires i <= b.count <= |b.modules|
  {
    b.(modules := seq(|b.modules|, k requires 0 <= k < |b.modules| =>
                        if i <= k < b.count then b.modules[k].(inited := true) else b.modules[k]))
  }

  lemma {:induction false} AttachAllMarks(regs: seq<Reg>, b: Block, i: nat)
    requires i <= b.count <= |b.modules|
    requires forall k :: i <= k < b.count ==> Named(regs, b.modules[k].name)
    ensures AttachAll(regs, b, i) == Ready(Marked(b, i), CallsFrom(b, i))
    decreases b.count - i
  {
    if i == b.count {
      assert Marked(b, i).modules == b.modules;
    } else {
      var m := b.modules[i];
      var b1 := b.(modules := b.modules[i := m.(inited := true)]);
      AttachAllMarks(regs, b1, i + 1);
      SameCalls(b, b1, i + 1);
      assert Marked(b1, i + 1).modules == Marked(b, i).modules;
    }
  }

  lemma {:induction false} SameCalls(b: Block, c: Block, i: nat)
    requires i <= b.count == c.count <= |b.modules| == |c.modules|
    requires forall k :: i <= k < b.count ==> c.modules[k] == b.modules[k]
    ensures CallsFrom(b, i) == CallsFrom(c, i)
    decreases b.count - i
  {
    if i < b.count { SameCalls(b, c, i + 1); }
  }

  lemma {:induction false} CallAt(b: Block, i: nat, k: nat)
    requires i <= k < b.count <= |b.modules|
    ensures |CallsFrom(b, i)| == b.count - i
    ensures var m := b.modules[k]; CallsFrom(b, i)[k - i] == Attach(m.name, m.offset, m.size, m.inited)
    decreases k - i
  {
    if i < k { CallAt(b, i + 1, k); } else { CallCount(b, i); }
  }

  lemma {:induction false} CallCount(b: Block, i: nat)
    requires i <= b.count <= |b.modules|
    ensures |CallsFrom(b, i)| == b.count - i
    decreases b.count - i
  {
    if i < b.count { CallCount(b, i + 1); }
  }

  // ---------------------------------------------------------------- boots

  /** A block as a finished Init leaves it: laid out to its last byte, every module attached. */
  ghost predicate Full(b: Block) {
    && Laid(b, HEADER + |b.data|) && b.dataLength == HEADER + |b.data|
    && forall i :: 0 <= i < b.count ==> b.modules[i].inited
  }

  lemma {:induction false} MarkedIsFull(b: Block)
    requires Laid(b, HEADER + |b.data|) && b.dataLength == HEADER + |b.data|
    ensures Full(Marked(b, 0)) && Dir(Marked(b, 0)) == Dir(b) && Marked(b, 0).data == b.data
    ensures forall i :: 0 <= i < b.count ==> Marked(b, 0).modules[i] == b.modules[i].(inited := true)
  {
    assert Dir(Marked(b, 0)) == Dir(b);
  }

  lemma {:induction false} MissingFromRegs(regs: seq<Reg>, dir: seq<Reg>, i: nat)
    requires i <= |regs|
    ensures Known(Missing(regs, dir, i), regs)
    decreases |regs| - i
  {
    if i < |regs| { MissingFromRegs(regs, dir, i + 1); }
  }

  lemma {:induction false} AllMissing(regs: seq<Reg>, i: nat)
    requires i <= |regs|
    ensures Missing(regs, [], i) == regs[i..]
    decreases |regs| - i
  {
    if i < |regs| {
      AllMissing(regs, i + 1);
      assert regs[i..] == [regs[i]] + regs[i + 1..];
    }
  }

  lemma {:induction false} KnownConcat(a: seq<Reg>, b: seq<Reg>, regs: seq<Reg>)
    requires Known(a, regs) && Known(b, regs)
    ensures Known(a + b, regs)
  {
  }

  // r is the result of attaching every module of b.
  ghost predicate AttachedAs(b: Block, r: Booted) {
    && r.Ready? && b.count <= |b.modules| && Full(r.b) && Dir(r.b) == Dir(b) && r.b.data == b.data
    && (forall i :: 0 <= i < b.count ==> r.b.modules[i] == b.modules[i].(inited := true))
    && |r.calls| == b.count
    && (forall i :: 0 <= i < b.count ==>
          r.calls[i] == Attach(b.modules[i].name, b.modules[i].offset, b.modules[i].size, b.modules[i].inited))
  }

  lemma {:induction false} AttachAllIs(regs: seq<Reg>, b: Block)
    requires Laid(b, HEADER + |b.data|) && b.dataLength == HEADER + |b.data| && Known(Dir(b), regs)
    ensures AttachedAs(b, AttachAll(regs, b, 0))
  {
    AttachAllMarks(regs, b, 0);
    MarkedIsFull(b);
    CallCount(b, 0);
    forall i | 0 <= i < b.count
      ensures var m := b.modules[i]; CallsFrom(b, 0)[i] == Attach(m.name, m.offset, m.size, m.inited)
    {
      CallAt(b, 0, i);
    }
  }

  /**
    The first Init: the directory is the registrations in order, the segments fill the block
    exactly, all bytes are zero, and every notifier is told that its memory is new.
   */
  lemma {:induction false} CreateLaysOut(regs: seq<Reg>)
    requires Usable(regs)
    ensures var r := Create(regs);
            && r.Ready? && Full(r.b) && Dir(r.b) == regs && HEADER + |r.b.data| == TotalSize(regs)
            && (forall k :: 0 <= k < |regs| ==> r.b.modules[k].offset == 12578 + Weigh(regs[..k], SizeOf))
            && (forall k :: 0 <= k < |r.b.data| ==> r.b.data[k] == 0)
            && |r.calls| == |regs| && (forall k :: 0 <= k < |regs| ==> !r.calls[k].inited)
  {
    var b := FirstBlock(regs);
    AttachAllIs(regs, b);
  }

  lemma {:induction false} FirstBlock(regs: seq<Reg>) returns (b: Block)
    requires Usable(regs)
    ensures Laid(b, HEADER + |b.data|) && b.dataLength == HEADER + |b.data| == TotalSize(regs)
    ensures Dir(b) == regs && Create(regs) == AttachAll(regs, b, 0)
    ensures forall k :: 0 <= k < |b.data| ==> b.data[k] == 0
    ensures forall i :: 0 <= i < b.count ==> !b.modules[i].inited
  {
    b := FillEmpty(regs, TotalSize(regs), EmptyBlock(TotalSize(regs)));
  }

  lemma {:induction false} FillEmpty(regs: seq<Reg>, total: nat, e: Block) returns (b: Block)
    requires Usable(regs) && total == TotalSize(regs) && Laid(e, total) && Dir(e) == [] && e.dataLength == HEADER
    ensures b == Append(regs, total, e, 0) && Laid(b, total) && b.dataLength == total && Dir(b) == regs
    ensures forall k :: 0 <= k < |b.data| ==> b.data[k] == 0
    ensures forall i :: 0 <= i < b.count ==> !b.modules[i].inited
  {
    AllMissing(regs, 0);
    assert regs[0..] == regs;
    b := AppendFills(regs, total, e, regs);
    assert [] + regs == regs;
  }

  /** What Restart makes of a full block that was attached with more bytes: `added` is what it added. */
  ghost predicate Recovered(b: Block, added: seq<Reg>, r: Booted) {
    && r.Ready? && Full(r.b) && b.count <= |b.modules| && Dir(r.b) == Dir(b) + added
    && |b.data| <= |r.b.data| && r.b.data[..|b.data|] == b.data
    && (forall k :: |b.data| <= k < |r.b.data| ==> r.b.data[k] == 0)
    && (forall i :: 0 <= i < b.count ==> r.b.modules[i] == b.modules[i])
    && |r.calls| == r.b.count && (forall i :: 0 <= i < r.b.count ==> (r.calls[i].inited <==> i < b.count))
  }

  /**
    A restart whose registrations keep the old ones, in any order and with the same sizes, and
    fit the directory: Init succeeds and its assertion holds, every old module keeps its place,
    size and bytes and is told so, and the modules added lie behind them in zeroed space and are
    told that they are new.  The missing registrations are added if and only if the total size
    has grown.
   */
  lemma {:induction false} RestartRecovers(regs: seq<Reg>, b: Block, extra: seq<Byte>)
    requires Full(b) && Usable(regs) && Known(Dir(b), regs) && HEADER + |b.data| + |extra| == TotalSize(regs)
    ensures Recovered(b, if extra == [] then [] else Missing(regs, Dir(b), 0), Restart(regs, Grown(b, extra)))
  {
    DirAndMissing(regs, Dir(b));
    if extra == [] {
      RestartUnchanged(regs, b);
    } else {
      RestartAdds(regs, b, extra, Missing(regs, Dir(b), 0));
    }
  }

  lemma {:induction false} RestartUnchanged(regs: seq<Reg>, b: Block)
    requires Full(b) && Known(Dir(b), regs) && HEADER + |b.data| == TotalSize(regs)
    ensures Recovered(b, [], Restart(regs, Grown(b, [])))
  {
    assert Grown(b, []) == b by { assert b.data + [] == b.data; }
    AttachAllIs(regs, b);
    assert Dir(b) + [] == Dir(b);
  }

  lemma {:induction false} RestartAdds(regs: seq<Reg>, b: Block, extra: seq<Byte>, missing: seq<Reg>)
    requires Full(b) && Usable(regs) && Known(Dir(b), regs) && missing == Missing(regs, Dir(b), 0)
    requires extra != [] && |extra| == Weigh(missing, SizeOf) && |regs| == b.count + |missing|
    requires HEADER + |b.data| + |extra| == TotalSize(regs)
    ensures Recovered(b, missing, Restart(regs, Grown(b, extra)))
  {
    var r := AppendedBlock(regs, b, extra, missing);
    AttachAllIs(regs, r);
    RecoveredFrom(b, extra, r, missing, AttachAll(regs, r, 0));
  }

  lemma {:induction false} AppendedBlock(regs: seq<Reg>, b: Block, extra: seq<Byte>, missing: seq<Reg>)
    returns (r: Block)
    requires Full(b) && Usable(regs) && Known(Dir(b), regs) && missing == Missing(regs, Dir(b), 0)
    requires extra != [] && |extra| == Weigh(missing, SizeOf) && |regs| == b.count + |missing|
    requires HEADER + |b.data| + |extra| == TotalSize(regs)
    ensures Grew(Grown(b, extra), r, missing, HEADER + |b.data| + |extra|)
    ensures r.dataLength == HEADER + |r.data| && Known(Dir(r), regs)
    ensures Restart(regs, Grown(b, extra)) == AttachAll(regs, r, 0)
  {
    var g := Grown(b, extra);
    var total := TotalSize(regs);
    assert missing != [];
    r := AppendFills(regs, total, g, missing);
    MissingFromRegs(regs, Dir(b), 0);
    KnownConcat(Dir(b), missing, regs);
  }

  lemma {:induction false} AppendFills(regs: seq<Reg>, total: nat, g: Block, missing: seq<Reg>) returns (r: Block)
    requires Laid(g, total) && Usable(regs) && missing == Missing(regs, Dir(g), 0)
    requires g.dataLength + Weigh(missing, SizeOf) == total && g.count + |missing| <= 256
    ensures r == Append(regs, total, g, 0) && Grew(g, r, missing, total) && r.dataLength == total
  {
    r := Append(regs, total, g, 0);
    AppendGrows(regs, total, g, 0, missing);
    WeighConcat(Dir(g), missing, SizeOf);
  }

  lemma {:induction false} RecoveredFrom(b: Block, extra: seq<Byte>, r: Block, more: seq<Reg>, out: Booted)
    requires Full(b) && Grew(Grown(b, extra), r, more, HEADER + |b.data| + |extra|)
    requires r.dataLength == HEADER + |r.data| && AttachedAs(r, out)
    ensures Recovered(b, more, out)
  {
    var g := Grown(b, extra);
    assert Dir(g) == Dir(b);
    assert r.data[..|b.data|] == g.data[..|b.data|] == b.data;
    forall i | 0 <= i < b.count
      ensures out.b.modules[i] == b.modules[i]
    {
      assert r.modules[i] == r.modules[..b.count][i] == b.modules[i];
    }
  }

  lemma {:induction false} NamedInConcat(a: seq<Reg>, b: seq<Reg>, name: string)
    ensures Named(a + b, name) <==> Named(a, name) || Named(b, name)
  {
    if Named(a, name) {
      var i :| 0 <= i < |a| && a[i].name == name;
      assert (a + b)[i].name == name;
    }
    if Named(b, name) {
      var i :| 0 <= i < |b| && b[i].name == name;
      assert (a + b)[|a| + i].name == name;
    }
  }

  lemma {:induction false} MissingIsNamed(regs: seq<Reg>, dir: seq<Reg>, i: nat, k: nat)
    requires i <= k < |regs|
    ensures Named(dir, regs[k].name) || Named(Missing(regs, dir, i), regs[k].name)
    ensures !Named(dir, regs[k].name) ==> Missing(regs, dir, i) != []
    decreases k - i
  {
    if i < k {
      MissingIsNamed(regs, dir, i + 1, k);
      NamedInConcat(if Named(dir, regs[i].name) then [] else [regs[i]], Missing(regs, dir, i + 1), regs[k].name);
    } else if !Named(dir, regs[k].name) {
      assert Missing(regs, dir, i)[0] == regs[k];
    }
  }

  lemma {:induction false} MissingIsNew(regs: seq<Reg>, dir: seq<Reg>, i: nat)
    requires i <= |regs| && Missing(regs, dir, i) != []
    ensures exists k :: i <= k < |regs| && !Named(dir, regs[k].name)
    decreases |regs| - i
  {
    if Named(dir, regs[i].name) { MissingIsNew(regs, dir, i + 1); }
  }

  lemma {:induction false} CoveredWhen(regs: seq<Reg>, dir: seq<Reg>)
    ensures forall k :: 0 <= k < |regs| ==> Named(dir + Missing(regs, dir, 0), regs[k].name)
    ensures (forall k :: 0 <= k < |regs| ==> Named(dir, regs[k].name)) <==> Missing(regs, dir, 0) == []
  {
    forall k | 0 <= k < |regs|
      ensures Named(dir + Missing(regs, dir, 0), regs[k].name)
      ensures !Named(dir, regs[k].name) ==> Missing(regs, dir, 0) != []
    {
      MissingIsNamed(regs, dir, 0, k);
      NamedInConcat(dir, Missing(regs, dir, 0), regs[k].name);
    }
    if Missing(regs, dir, 0) != [] { MissingIsNew(regs, dir, 0); }
  }

  /**
    After a restart every registration has its module if and only if nothing was missing or the
    total size has grown: new modules of size 0 alone are never added.
   */
  lemma {:induction false} EveryRegistrationIsPlacedExactlyWhen(regs: seq<Reg>, b: Block, extra: seq<Byte>)
    requires Full(b) && Usable(regs) && Known(Dir(b), regs) && HEADER + |b.data| + |extra| == TotalSize(regs)
    ensures var r := Restart(regs, Grown(b, extra));
            && r.Ready? && Full(r.b)
            && ((forall k :: 0 <= k < |regs| ==> Named(Dir(r.b), regs[k].name))
                <==> Missing(regs, Dir(b), 0) == [] || b.dataLength != TotalSize(regs))
  {
    RestartRecovers(regs, b, extra);
    PlacedWhen(regs, b, extra, Restart(regs, Grown(b, extra)));
  }

  /** A restart with the registrations of the first Init and one more, of size 0, does not place that one. */
  lemma {:induction false} EmptyModuleIsNotPlaced(before: seq<Reg>, flags: Reg)
    requires Usable(before) && Usable(before + [flags]) && flags.size == 0 && !Named(before, flags.name)
    ensures var b := Create(before);
            && b.Ready? && Full(b.b) && Roomy(b.b, TotalSize(before + [flags]))
            && var r := Restart(before + [flags], b.b);
               r.Ready? && Full(r.b) && Dir(r.b) == before && !Named(Dir(r.b), flags.name)
  {
    CreateLaysOut(before);
    var b := Create(before).b;
    WeighConcat(before, [flags], SizeOf);
    assert [flags][..0] == [];
    RestartUnchanged(before + [flags], b);
    assert Grown(b, []) == b by { assert b.data + [] == b.data; }
    assert Dir(b) + [] == Dir(b);
  }

  /** The smallest case: a module of size 0 registered for a restart is not placed. */
  lemma {:induction false} NewEmptyModuleIsNotPlaced()
    ensures var before, flags := [Reg("role", 8)], Reg("flags", 0);
            var b := Create(before);
            && b.Ready? && Full(b.b) && Roomy(b.b, TotalSize(before + [flags]))
            && var r := Restart(before + [flags], b.b);
               r.Ready? && Full(r.b) && Dir(r.b) == before && !Named(Dir(r.b), "flags")
  {
    EmptyModuleIsNotPlaced([Reg("role", 8)], Reg("flags", 0));
  }

  lemma {:induction false} PlacedWhen(regs: seq<Reg>, b: Block, extra: seq<Byte>, r: Booted)
    requires b.count <= |b.modules|
    requires Recovered(b, if extra == [] then [] else Missing(regs, Dir(b), 0), r)
    ensures (forall k :: 0 <= k < |regs| ==> Named(Dir(r.b), regs[k].name))
            <==> Missing(regs, Dir(b), 0) == [] || extra != []
  {
    CoveredWhen(regs, Dir(b));
    assert Dir(b) + [] == Dir(b);
  }

  // ---------------------------------------------------------------- boots that fail

  /** Attaching succeeds if and only if every entry is registered. */
  lemma {:induction false} AttachAllReadyExactlyWhen(regs: seq<Reg>, b: Block, i: nat)
    requires i <= b.count <= |b.modules|
    ensures AttachAll(regs, b, i).Ready? <==> forall k :: i <= k < b.count ==> Named(regs, b.modules[k].name)
    decreases b.count - i
  {
    if i < b.count {
      var m := b.modules[i];
      var b1 := b.(modules := b.modules[i := m.(inited := true)]);
      AttachAllReadyExactlyWhen(regs, b1, i + 1);
      assert forall k :: i < k < b.count ==> b1.modules[k] == b.modules[k];
      var k := FindReg(regs, m.name, 0);
    }
  }

  lemma {:induction false} AppendEntries(regs: seq<Reg>, total: nat, b: Block, i: nat)
    requires Roomy(b, total) && Usable(regs) && i <= |regs|
    ensures var r := Append(regs, total, b, i);
            && b.count <= r.count && (forall k :: 0 <= k < b.count ==> r.modules[k].name == b.modules[k].name)
            && (forall k :: b.count <= k < r.count ==> Named(regs, r.modules[k].name))
    decreases |regs| - i
  {
    if i < |regs| {
      var b1 := if HasModule(b, regs[i].name) then b else AddModule(regs, total, b, regs[i].name);
      AppendEntries(regs, total, b1, i + 1);
    }
  }

  /**
    Init on any block.  Its assertion fails if and only if the magic is right, the sizes differ, and
    the block is larger than what is registered or has as many modules.  Otherwise it succeeds if
    and only if the magic is right and every entry of the directory is registered.
   */
  lemma {:induction false} RestartOutcome(regs: seq<Reg>, b: Block)
    requires Usable(regs) && Roomy(b, TotalSize(regs))
    ensures var r := Restart(regs, b);
            && (r.Aborted? <==> b.magic && b.dataLength != TotalSize(regs)
                                && (TotalSize(regs) < b.dataLength || |regs| <= b.count))
            && (!r.Aborted? ==>
                (r.Ready? <==> b.magic && forall k :: 0 <= k < b.count ==> Named(regs, b.modules[k].name)))
  {
    AttachAllReadyExactlyWhen(regs, b, 0);
    AppendEntries(regs, TotalSize(regs), b, 0);
    AttachAllReadyExactlyWhen(regs, Append(regs, TotalSize(regs), b, 0), 0);
  }

  /** A name of 32 characters or more is cut in the directory and not found again: Init fails. */
  lemma {:induction false} LongNameFailsExactlyWhen(name: string, size: nat)
    ensures Create([Reg(name, size)]).Ready? <==> |name| < 32
    ensures 32 <= |name| ==> Create([Reg(name, size)]).Failed?
  {
    var regs := [Reg(name, size)];
    assert regs[..0] == [];
    var total := TotalSize(regs);
    var e := EmptyBlock(total);
    assert regs[..|regs| - 1] == [] && Weigh(regs, SizeOf) == size;
    var b := AddModule(regs, total, e, name);
    assert FindReg(regs, name, 0) == 0;
    assert b.count == 1 && b.modules[0].name == Truncate(name);
    assert Append(regs, total, e, 0) == Append(regs, total, b, 1) == b;
    AttachAllReadyExactlyWhen(regs, b, 0);
    if |name| < 32 { assert regs[0].name == b.modules[0].name; }
  }

  /** A directory of 256 modules takes no more. */
  lemma {:induction false} FullDirectoryStays(regs: seq<Reg>, total: nat, b: Block, i: nat)
    requires Roomy(b, total) && i <= |regs| && b.count == 256
    ensures Append(regs, total, b, i) == b
    decreases |regs| - i
  {
    if i < |regs| { FullDirectoryStays(regs, total, b, i + 1); }
  }

  // ---------------------------------------------------------------- segments

  lemma {:induction false} PrefixWeighs(rs: seq<Reg>, i: nat, j: nat)
    requires i < j <= |rs|
    ensures Weigh(rs[..i], SizeOf) + rs[i].size <= Weigh(rs[..j], SizeOf)
    decreases j
  {
    assert rs[..j][..j - 1] == rs[..j - 1];
    if i < j - 1 { PrefixWeighs(rs, i, j - 1); }
  }

  /** Segments lie behind the header, inside the block, and apart from each other. */
  lemma {:induction false} SegmentsAreApart(b: Block, i: nat, j: nat)
    requires Full(b) && i < b.count && j < b.count
    ensures InBlock(b, i)
    ensures i < j ==> b.modules[i].offset + b.modules[i].size <= b.modules[j].offset
  {
    PrefixWeighs(Dir(b), i, b.count);
    assert Dir(b)[..b.count] == Dir(b);
    if i < j { PrefixWeighs(Dir(b), i, j); }
  }

  predicate InBlock(b: Block, i: nat) {
    i < b.count <= |b.modules| && HEADER <= b.modules[i].offset
    && b.modules[i].offset + b.modules[i].size <= HEADER + |b.data|
  }

  function Segment(b: Block, i: nat): (r: seq<Byte>)
    requires InBlock(b, i)
  {
    var at := b.modules[i].offset - HEADER;
    b.data[at..at + b.modules[i].size]
  }

  /** Module i's owner overwrites its segment. */
  function Overwrite(b: Block, i: nat, bytes: seq<Byte>): (r: Block)
    requires InBlock(b, i) && |bytes| == b.modules[i].size
  {
    var at := b.modules[i].offset - HEADER;
    b.(data := b.data[..at] + bytes + b.data[at + |bytes|..])
  }

  // ---------------------------------------------------------------- lifetimes

  // A restart, or a module's owner overwriting its segment.
  datatype Life = Boot(regs: seq<Reg>, extra: seq<Byte>) | Store(i: nat, bytes: seq<Byte>)

  ghost predicate CanLive(b: Block, l: Life) {
    && Full(b)
    && match l
       case Boot(regs, extra) =>
         Usable(regs) && Known(Dir(b), regs) && HEADER + |b.data| + |extra| == TotalSize(regs)
       case Store(i, bytes) => i < b.count && |bytes| == b.modules[i].size
  }

  ghost function Live(b: Block, l: Life): (r: Block)
    requires CanLive(b, l)
  {
    match l
    case Boot(regs, extra) =>
      RestartRecovers(regs, b, extra);
      Restart(regs, Grown(b, extra)).b
    case Store(i, bytes) =>
      SegmentsAreApart(b, i, i);
      Overwrite(b, i, bytes)
  }

  ghost predicate CanLiveAll(b: Block, ls: seq<Life>)
    decreases |ls|
  {
    ls == [] || (CanLive(b, ls[0]) && CanLiveAll(Live(b, ls[0]), ls[1..]))
  }

  ghost function LiveAll(b: Block, ls: seq<Life>): (r: Block)
    requires CanLiveAll(b, ls)
    decreases |ls|
  {
    if ls == [] then b else LiveAll(Live(b, ls[0]), ls[1..])
  }

  /** What module i's owner wrote last. */
  function LastStored(ls: seq<Life>, i: nat, was: seq<Byte>): (r: seq<Byte>)
    decreases |ls|
  {
    if ls == [] then was
    else LastStored(ls[1..], i, if ls[0].Store? && ls[0].i == i then ls[0].bytes else was)
  }

  lemma {:induction false} SliceOfLonger(d: seq<Byte>, e: seq<Byte>, at: nat, to: nat)
    requires at <= to <= |d| <= |e| && e[..|d|] == d
    ensures e[at..to] == d[at..to]
  {
    forall k | at <= k < to
      ensures e[k] == d[k]
    {
      assert e[k] == e[..|d|][k];
    }
  }

  lemma {:induction false} SliceAfterStore(d: seq<Byte>, at: nat, bytes: seq<Byte>, from: nat, to: nat)
    requires at + |bytes| <= |d| && from <= to <= |d|
    ensures var e := d[..at] + bytes + d[at + |bytes|..];
            && (to <= at || at + |bytes| <= from ==> e[from..to] == d[from..to])
            && (from == at && to == at + |bytes| ==> e[from..to] == bytes)
  {
    var e := d[..at] + bytes + d[at + |bytes|..];
    assert forall k :: 0 <= k < at ==> e[k] == d[k];
    assert forall k :: at + |bytes| <= k < |d| ==> e[k] == d[k];
  }

  lemma {:induction false} BootKeepsSegment(b: Block, r: Block, i: nat)
    requires InBlock(b, i) && i < r.count <= |r.modules| && r.modules[i] == b.modules[i]
    requires |b.data| <= |r.data| && r.data[..|b.data|] == b.data
    ensures InBlock(r, i) && Segment(r, i) == Segment(b, i)
  {
    var at := b.modules[i].offset - HEADER;
    SliceOfLonger(b.data, r.data, at, at + b.modules[i].size);
  }

  lemma {:induction false} StoreKeepsFull(b: Block, j: nat, bytes: seq<Byte>)
    requires Full(b) && InBlock(b, j) && |bytes| == b.modules[j].size
    ensures Full(Overwrite(b, j, bytes))
  {
    assert Dir(Overwrite(b, j, bytes)) == Dir(b);
  }

  lemma {:induction false} StoreKeepsOthers(b: Block, j: nat, bytes: seq<Byte>, i: nat)
    requires InBlock(b, i) && InBlock(b, j) && |bytes| == b.modules[j].size
    requires i < j ==> b.modules[i].offset + b.modules[i].size <= b.modules[j].offset
    requires j < i ==> b.modules[j].offset + b.modules[j].size <= b.modules[i].offset
    ensures var r := Overwrite(b, j, bytes);
            InBlock(r, i) && Segment(r, i) == if i == j then bytes else Segment(b, i)
  {
    var from := b.modules[i].offset - HEADER;
    SliceAfterStore(b.data, b.modules[j].offset - HEADER, bytes, from, from + b.modules[i].size);
  }

  /**
    Over any sequence of restarts whose registrations keep the earlier ones, and of writes: each
    module keeps its name, offset, size and attached mark, and its bytes are those its owner
    wrote last.
   */
  lemma {:induction false} ModulesSurvive(b: Block, ls: seq<Life>, i: nat)
    requires Full(b) && i < b.count && CanLiveAll(b, ls)
    ensures InBlock(b, i)
    ensures var r := LiveAll(b, ls);
            && Full(r) && InBlock(r, i) && r.modules[i] == b.modules[i]
            && Segment(r, i) == LastStored(ls, i, Segment(b, i))
    decreases |ls|
  {
    SegmentsAreApart(b, i, i);
    if ls != [] {
      OneLife(b, ls[0], i);
      ModulesSurvive(Live(b, ls[0]), ls[1..], i);
    }
  }

  lemma {:induction false} OneLife(b: Block, l: Life, i: nat)
    requires CanLive(b, l) && i < b.count && InBlock(b, i)
    ensures var r := Live(b, l);
            && Full(r) && InBlock(r, i) && r.modules[i] == b.modules[i]
            && Segment(r, i) == if l.Store? && l.i == i then l.bytes else Segment(b, i)
  {
    match l
    case Boot(regs, extra) =>
      RestartRecovers(regs, b, extra);
      BootKeepsSegment(b, Restart(regs, Grown(b, extra)).b, i);
    case Store(j, bytes) =>
      SegmentsAreApart(b, i, j);
      SegmentsAreApart(b, j, i);
      StoreKeepsFull(b, j, bytes);
      StoreKeepsOthers(b, j, bytes, i);
  }
}
