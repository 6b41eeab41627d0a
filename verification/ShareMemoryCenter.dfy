/**
  ShareMemoryCenter as an object: the registrations it collects, and the mapped block it writes
  in place.  Each method is proved to do what module SharedMemory says.
 */
module ShareMemoryCenter {
  import opened Values
  import opened SharedMemory

  // The mapped memory: the header's fields, its directory, and the bytes behind it.
  class Mapping {
    var magic: bool
    var dataLength: nat
    var count: nat
    const modules: array<Module>
    const data: array<Byte>

    ghost function View(): Block
      reads this, modules, data
    {
      Block(magic, dataLength, count, modules[..], data[..])
    }

    constructor (magic: bool, dataLength: nat, count: nat, modules: array<Module>, data: array<Byte>)
      ensures this.modules == modules && this.data == data
      ensures View() == Block(magic, dataLength, count, modules[..], data[..])
    {
      this.magic, this.dataLength, this.count := magic, dataLength, count;
      this.modules, this.data := modules, data;
    }

    method FindModule(name: string) returns (found: bool)
      requires count <= modules.Length
      ensures found == HasModule(View(), name)
    {
      for i := 0 to count
        invariant forall k :: 0 <= k < i ==> modules[k].name != name
      {
        if modules[i].name == name { return true; }
      }
      return false;
    }

    /** bzero of `n` bytes. */
    method Zero(at: nat, n: nat)
      requires at + n <= data.Length
      modifies data
      ensures data[..] == old(data[..])[..at] + Zeros(n) + old(data[..])[at + n..]
    {
      for i := 0 to n
        invariant forall k :: 0 <= k < data.Length ==> data[k] == if at <= k < at + i then 0 else old(data[k])
      {
        data[at + i] := 0;
      }
    }
  }

  // Attaching all of `start` comes to `calls` and then attaching b from entry i on.
  ghost predicate AttachedSoFar(regs: seq<Reg>, start: Block, calls: seq<Attach>, b: Block, i: nat) {
    && start.count <= |start.modules| && i <= b.count <= |b.modules|
    && var a, z := AttachAll(regs, start, 0), AttachAll(regs, b, i);
       if z.Ready? then a == Ready(z.b, calls + z.calls) else a == z
  }

  lemma {:induction false} AttachOne(regs: seq<Reg>, start: Block, calls: seq<Attach>, b: Block, i: nat)
    requires AttachedSoFar(regs, start, calls, b, i) && i < b.count && FindReg(regs, b.modules[i].name, 0) < |regs|
    ensures var m := b.modules[i];
            AttachedSoFar(regs, start, calls + [Attach(m.name, m.offset, m.size, m.inited)],
                          b.(modules := b.modules[i := m.(inited := true)]), i + 1)
  {
    var m := b.modules[i];
    var z := AttachAll(regs, b.(modules := b.modules[i := m.(inited := true)]), i + 1);
    var call := [Attach(m.name, m.offset, m.size, m.inited)];
    if z.Ready? { assert calls + (call + z.calls) == (calls + call) + z.calls; }
  }

  datatype Outcome = Ok | Error | AssertionFails

  class Center {
    var regs: seq<Reg>   // m_vecModules
    var total: nat       // m_zTotalSize

    constructor ()
      ensures regs == [] && total == 0
    {
      regs, total := [], 0;
    }

    method FindRegistration(name: string) returns (k: nat)
      ensures k == FindReg(regs, name, 0)
    {
      k := 0;
      while k < |regs|
        invariant k <= |regs| && FindReg(regs, name, 0) == FindReg(regs, name, k)
      {
        if regs[k].name == name { return; }
        k := k + 1;
      }
    }

    /** Names stay distinct and the total is the sum of the sizes. */
    method Register(reg: Reg) returns (ret: int)
      requires Distinct(regs) && total == Weigh(regs, SizeOf)
      modifies this
      ensures Distinct(regs) && total == Weigh(regs, SizeOf)
      ensures ret == if Named(old(regs), reg.name) then -1 else 0
      ensures regs == if ret == 0 then old(regs) + [reg] else old(regs)
    {
      var k := FindRegistration(reg.name);
      if k < |regs| { return -1; }
      WeighConcat(regs, [reg], SizeOf);
      assert [reg][..0] == [];
      regs := regs + [reg];
      total := total + reg.size;
      ret := 0;
    }

    method AddNamed(m: Mapping, name: string)
      requires Roomy(m.View(), total)
      modifies m, m.modules, m.data
      ensures m.View() == AddModule(regs, total, old(m.View()), name)
    {
      var k := FindRegistration(name);
      if k == |regs| { return; }
      var reg := regs[k];
      if reg.size + m.dataLength > total { return; }
      if m.count >= MAX_MODULES { return; }
      ghost var was := m.modules[..];
      m.Zero(m.dataLength - HEADER, reg.size);
      m.modules[m.count] := m.modules[m.count].(name := Truncate(reg.name), offset := m.dataLength, size := reg.size);
      assert m.modules[..] == was[m.count := m.modules[m.count]];
      m.dataLength := m.dataLength + reg.size;
      m.count := m.count + 1;
    }

    method AppendRegModules(m: Mapping)
      requires Roomy(m.View(), total)
      modifies m, m.modules, m.data
      ensures m.View() == Append(regs, total, old(m.View()), 0)
      ensures Roomy(m.View(), total)
    {
      for i := 0 to |regs|
        invariant Roomy(m.View(), total)
        invariant Append(regs, total, old(m.View()), 0) == Append(regs, total, m.View(), i)
      {
        var found := m.FindModule(regs[i].name);
        if !found { AddNamed(m, regs[i].name); }
      }
    }

    /** `calls` is what the notifiers were told; all of them accept. */
    method AttachAllModules(m: Mapping) returns (ok: bool, calls: seq<Attach>)
      requires m.count <= m.modules.Length
      modifies m.modules
      ensures var r := AttachAll(regs, old(m.View()), 0);
              ok == r.Ready? && (ok ==> r == Ready(m.View(), calls))
    {
      calls := [];
      var i := 0;
      ghost var start := m.View();
      while i < m.count
        invariant i <= m.count && m.count == old(m.count) && m.data[..] == start.data
        invariant AttachedSoFar(regs, start, calls, m.View(), i)
      {
        var k := FindRegistration(m.modules[i].name);
        if k == |regs| { return false, []; }
        ghost var was := m.View();
        AttachOne(regs, start, calls, was, i);
        calls := calls + [Attach(m.modules[i].name, m.modules[i].offset, m.modules[i].size, m.modules[i].inited)];
        m.modules[i] := m.modules[i].(inited := true);
        assert m.modules[..] == was.modules[i := was.modules[i].(inited := true)];
        i := i + 1;
      }
      assert calls + [] == calls;
      ok := true;
    }

    method InitRegModules(m: Mapping)
      requires m.modules.Length == MAX_MODULES && HEADER + m.data.Length == total
      modifies m, m.modules, m.data
      ensures m.View() == Append(regs, total, EmptyBlock(total), 0)
      ensures Roomy(m.View(), total)
    {
      m.Zero(0, m.data.Length);
      for i := 0 to MAX_MODULES
        invariant forall k :: 0 <= k < i ==> m.modules[k] == Module("", false, 0, 0)
        invariant m.data[..] == Zeros(m.data.Length)
      {
        m.modules[i] := Module("", false, 0, 0);
      }
      m.magic, m.dataLength, m.count := true, HEADER, 0;
      assert m.modules[..] == EmptyBlock(total).modules;
      AppendRegModules(m);
    }

    /**
      Init on memory of the registered size: newly created, or attached with what an earlier
      process left in it.
     */
    method Init(m: Mapping, created: bool) returns (out: Outcome, calls: seq<Attach>)
      requires total == Weigh(regs, SizeOf) && m.modules.Length == MAX_MODULES
      requires HEADER + m.data.Length == HEADER + total
      requires !created ==> Roomy(m.View(), HEADER + total)
      modifies this, m, m.modules, m.data
      ensures regs == old(regs) && total == TotalSize(regs)
      ensures var r := if created then Create(regs) else Restart(regs, old(m.View()));
              match r
              case Ready(b, told) => out == Ok && m.View() == b && calls == told
              case Failed => out == Error
              case Aborted => out == AssertionFails
    {
      calls := [];
      total := total + HEADER;
      if created {
        InitRegModules(m);
      } else {
        if !m.magic { return Error, []; }
        if m.dataLength != total {
          if !(m.dataLength < total && m.count < |regs|) { return AssertionFails, []; }
          AppendRegModules(m);
        }
      }
      var ok;
      ok, calls := AttachAllModules(m);
      out := if ok then Ok else Error;
    }
  }
}
