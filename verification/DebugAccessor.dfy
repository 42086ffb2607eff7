/** Debug infos in a file: the accessor that reads them back lazily. */
module DebugAccessor {
  import opened Bytes
  import opened Leb128
  import opened FileBytes
  import opened Isa
  import opened DedupState

  // ---------- where the parts lie ----------

  function ParamsAt(id: nat, d: DebugInfo): nat {
    id + |Uleb(d.line)| + |Uleb(|d.params|)|
  }

  function PoolAt(id: nat, l: Places, d: DebugInfo): nat {
    ParamsAt(id, d) + |ParamBytes(l, d.params)|
  }

  function ProgramAt(id: nat, l: Places, d: DebugInfo): nat {
    PoolAt(id, l, d) + |Uleb(|d.pool|)| + |d.pool|
  }

  /** The offset of a program, from the table whose place is in the header. */
  function ResolveProgramIndex(file: seq<byte>, index: nat): nat {
    ReadLe(file, ReadLe(file, 40, 4) + 4 * index, 4)
  }

  /** What the names of the parameters are read as. */
  function TextOf(l: Places, params: seq<nat>): (r: seq<nat>)
    ensures |r| == |params| && forall k :: 0 <= k < |r| ==> r[k] == l.text(params[k])
  {
    seq<nat>(|params|, k requires 0 <= k < |params| => l.text(params[k]))
  }

  lemma {:induction false} HeadRead(file: seq<byte>, id: nat, l: Places, d: DebugInfo)
    requires Lies(file, id, DebugBytes(l, d))
    ensures ReadUlebAt(file, id) == (d.line, id + |Uleb(d.line)|)
    ensures ReadUlebAt(file, id + |Uleb(d.line)|) == (|d.params|, ParamsAt(id, d))
    ensures Lies(file, ParamsAt(id, d), ParamBytes(l, d.params))
    ensures Lies(file, PoolAt(id, l, d), Uleb(|d.pool|) + (d.pool + Uleb(l.program(d.program))))
  {
    hide Uleb, ReadUlebAt, Lies, ParamBytes;
    var tail := Uleb(|d.pool|) + (d.pool + Uleb(l.program(d.program)));
    LiesSplit(file, id, Uleb(d.line), Uleb(|d.params|) + (ParamBytes(l, d.params) + tail));
    LiesSplit(file, id + |Uleb(d.line)|, Uleb(|d.params|), ParamBytes(l, d.params) + tail);
    LiesSplit(file, ParamsAt(id, d), ParamBytes(l, d.params), tail);
    ReadUlebBack(file, id, d.line);
    ReadUlebBack(file, id + |Uleb(d.line)|, |d.params|);
  }

  lemma {:induction false} PoolRead(file: seq<byte>, id: nat, l: Places, d: DebugInfo)
    requires Lies(file, id, DebugBytes(l, d))
    ensures ReadUlebAt(file, PoolAt(id, l, d)) == (|d.pool|, ProgramAt(id, l, d) - |d.pool|)
    ensures Lies(file, ProgramAt(id, l, d) - |d.pool|, d.pool)
    ensures ReadUlebAt(file, ProgramAt(id, l, d)) == (l.program(d.program), id + |DebugBytes(l, d)|)
  {
    hide Uleb, ReadUlebAt, Lies, ParamBytes;
    HeadRead(file, id, l, d);
    var p, index := PoolAt(id, l, d), l.program(d.program);
    LiesSplit(file, p, Uleb(|d.pool|), d.pool + Uleb(index));
    LiesSplit(file, p + |Uleb(|d.pool|)|, d.pool, Uleb(index));
    ReadUlebBack(file, p, |d.pool|);
    ReadUlebBack(file, ProgramAt(id, l, d), index);
  }

  lemma {:induction false} ParamsSplit(l: Places, params: seq<nat>, k: nat)
    requires k <= |params|
    ensures ParamBytes(l, params) == ParamBytes(l, params[..k]) + ParamBytes(l, params[k..])
    decreases k
  {
    hide Uleb;
    if k == 0 {
      assert params[..0] == [] && params[0..] == params;
    } else {
      ParamsSplit(l, params[1..], k - 1);
      assert params[..k][1..] == params[1..][..k - 1] && params[1..][k - 1..] == params[k..];
    }
  }

  lemma {:induction false} ParamRead(file: seq<byte>, p: nat, l: Places, params: seq<nat>, k: nat)
    requires k < |params| && Lies(file, p, ParamBytes(l, params))
    ensures
      var q := p + |ParamBytes(l, params[..k])|;
      ReadUlebAt(file, q) == (l.text(params[k]), p + |ParamBytes(l, params[..k + 1])|)
  {
    hide Uleb, ReadUlebAt, Lies;
    var q, v := p + |ParamBytes(l, params[..k])|, l.text(params[k]);
    ParamsSplit(l, params, k);
    ParamsSplit(l, params[..k + 1], k);
    assert params[..k + 1][..k] == params[..k] && params[..k + 1][k..] == [params[k]];
    assert ParamBytes(l, [params[k]]) == Uleb(v) + ParamBytes(l, []);
    assert params[k..][1..] == params[k + 1..];
    LiesSplit(file, p, ParamBytes(l, params[..k]), ParamBytes(l, params[k..]));
    LiesSplit(file, q, Uleb(v), ParamBytes(l, params[k + 1..]));
    ReadUlebBack(file, q, v);
  }

  class DebugInfoDataAccessor {
    const file: seq<byte>
    const id: nat
    ghost const places: Places
    ghost const item: DebugInfo

    const lineStart: nat
    const numParams: nat
    const parameters: nat
    var constantPoolSize: Option<nat>
    var lineNumProgramOff: Option<nat>
    var size: nat

    ghost predicate Constant() {
      && Lies(file, id, DebugBytes(places, item))
      && lineStart == item.line && numParams == |item.params| && parameters == ParamsAt(id, item)
    }

    ghost predicate Valid()
      reads this
    {
      && Constant()
      && (constantPoolSize.Some? ==> constantPoolSize.value == PoolAt(id, places, item))
      && (lineNumProgramOff.Some? ==> lineNumProgramOff.value == ProgramAt(id, places, item))
      && (size == 0 || size == |DebugBytes(places, item)|)
    }

    constructor (file: seq<byte>, id: nat, ghost places: Places, ghost item: DebugInfo)
      requires Lies(file, id, DebugBytes(places, item))
      ensures Valid() && this.file == file && this.id == id && this.places == places && this.item == item
    {
      hide Lies, DebugBytes, ReadUlebAt, Uleb, ParamBytes;
      HeadRead(file, id, places, item);
      var (line, p) := ReadUlebAt(file, id);
      var (n, q) := ReadUlebAt(file, p);
      this.file, this.id, this.places, this.item := file, id, places, item;
      lineStart, numParams, parameters := line, n, q;
      constantPoolSize, lineNumProgramOff, size := None, None, 0;
    }

    method EnumerateParameters() returns (ids: seq<nat>)
      requires Valid()
      modifies this
      ensures Valid() && ids == TextOf(places, item.params) && constantPoolSize.Some?
    {
      hide Lies, DebugBytes, ReadUlebAt, Uleb, ParamBytes;
      HeadRead(file, id, places, item);
      ids := [];
      var sp := parameters;
      NoParams(places, item.params);
      for i := 0 to numParams
        invariant Valid() && ids == TextOf(places, item.params)[..i]
        invariant sp == parameters + |ParamBytes(places, item.params[..i])|
      {
        ParamRead(file, parameters, places, item.params, i);
        var (v, next) := ReadUlebAt(file, sp);
        ids := ids + [v];
        sp := next;
      }
      assert item.params[..numParams] == item.params;
      constantPoolSize := Some(sp);
    }

    method GetConstantPool() returns (pool: seq<byte>)
      requires Valid()
      modifies this
      ensures Valid() && pool == item.pool && lineNumProgramOff.Some?
    {
      hide DebugBytes, ReadUlebAt, Uleb, ParamBytes;
      if constantPoolSize.None? {
        var _ := EnumerateParameters();
      }
      PoolRead(file, id, places, item);
      var (n, sp) := ReadUlebAt(file, constantPoolSize.value);
      lineNumProgramOff := Some(sp + n);
      return file[sp..sp + n];
    }

    /** The index of the program, looked up in the table that the header leads to. */
    method GetLineNumberProgram() returns (offset: nat)
      requires Valid()
      modifies this
      ensures Valid() && size > 0
      ensures offset == ResolveProgramIndex(file, places.program(item.program))
    {
      hide Lies, ResolveProgramIndex, ReadUlebAt, Uleb, ParamBytes;
      if lineNumProgramOff.None? {
        var _ := GetConstantPool();
      }
      PoolRead(file, id, places, item);
      LineTakesRoom(places, item);
      var (index, sp) := ReadUlebAt(file, lineNumProgramOff.value);
      size := sp - id;
      return ResolveProgramIndex(file, index);
    }

    method GetSize() returns (n: nat)
      requires Valid()
      modifies this
      ensures Valid() && n == |DebugBytes(places, item)|
    {
      hide Constant, DebugBytes, PoolAt, ProgramAt;
      if size == 0 {
        var _ := GetLineNumberProgram();
      }
      return size;
    }
  }

  lemma {:induction false} NoParams(l: Places, params: seq<nat>)
    ensures ParamBytes(l, params[..0]) == []
  {
  }

  lemma {:induction false} LineTakesRoom(l: Places, d: DebugInfo)
    ensures |DebugBytes(l, d)| > 0
  {
    hide ParamBytes;
  }
}
