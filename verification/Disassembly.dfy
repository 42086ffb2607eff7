/**
  Labels in disassembled code. Every jump, and every try and handler range, gets the label of the
  instruction it leads to; different instructions get different labels.
 */
module Disassembly {
  import opened Isa

  /** Names as the disassembler makes them up. */
  datatype Name = TryBegin(t: nat) | TryEnd(t: nat) | HandlerBegin(t: nat, c: nat) | HandlerEnd(t: nat, c: nat)
    | Jump(n: nat)

  /** The code: the size of the instruction at an address, and its offset if it is a jump. */
  datatype Code = Code(size: nat -> nat, jump: nat -> Option<int>, length: nat)

  ghost predicate Advances(code: Code) {
    forall p: nat :: code.size(p) > 0
  }

  /** Where instruction k starts. */
  function Start(code: Code, k: nat): nat {
    if k == 0 then 0 else var p := Start(code, k - 1); p + code.size(p)
  }

  lemma {:induction false} StartsGrow(code: Code, i: nat, j: nat)
    requires Advances(code) && i < j
    ensures Start(code, i) < Start(code, j)
  {
    if i < j - 1 {
      StartsGrow(code, i, j - 1);
    }
  }

  /** The number of instructions that start before the end. */
  ghost predicate Counts(code: Code, n: nat) {
    Start(code, n) >= code.length && (n > 0 ==> Start(code, n - 1) < code.length)
  }

  /** Number of the instruction at an address, found by counting from the first one; ends for every address. */
  method InstructionNumber(code: Code, address: int) returns (n: Option<nat>)
    requires Advances(code)
    ensures n.Some? ==> Start(code, n.value) == address
    ensures n.None? ==> forall k: nat :: Start(code, k) != address
  {
    var count, first := 0, 0;
    while first != address
      invariant first == Start(code, count)
      invariant forall k: nat :: k <= count && Start(code, k) == address ==> k == count
      decreases if first <= address then address - first else 0
    {
      StartsGrow(code, count, count + 1);
      count := count + 1;
      first := first + code.size(first);
      if first > address {
        NoneBetween(code, count, address);
        return None;
      }
    }
    return Some(count);
  }

  lemma {:induction false} NoneBetween(code: Code, count: nat, address: int)
    requires Advances(code) && count > 0 && Start(code, count) > address
    requires forall k: nat :: k < count ==> Start(code, k) != address
    ensures forall k: nat :: Start(code, k) != address
  {
    forall k: nat ensures Start(code, k) != address {
      if k > count {
        StartsGrow(code, count, k);
      }
    }
  }

  lemma {:induction false} StartsDiffer(code: Code, i: nat, j: nat)
    requires Advances(code) && Start(code, i) == Start(code, j)
    ensures i == j
  {
    if i < j {
      StartsGrow(code, i, j);
    } else if j < i {
      StartsGrow(code, j, i);
    }
  }

  // ---------- the label table ----------

  ghost predicate Distinct(table: map<nat, Name>) {
    forall i, j :: i in table && j in table && table[i] == table[j] ==> i == j
  }

  /** The label of an instruction: the one it has, or a new one. */
  method Labelled(table: map<nat, Name>, i: nat, name: Name) returns (table': map<nat, Name>, used: Name)
    requires Distinct(table) && name !in table.Values
    ensures Distinct(table') && i in table' && used == table'[i]
    ensures table' == if i in table then table else table[i := name]
  {
    if i in table {
      return table, table[i];
    }
    table' := table[i := name];
    used := name;
    NewIsDistinct(table, i, name);
  }

  lemma {:induction false} NewIsDistinct(table: map<nat, Name>, i: nat, name: Name)
    requires Distinct(table) && name !in table.Values && i !in table
    ensures Distinct(table[i := name])
  {
    forall j | j in table ensures table[j] != name {
      assert table[j] in table.Values;
    }
  }

  /** The order in which names of try blocks are made up. */
  function Block(name: Name): nat {
    if name.Jump? then 0 else name.t
  }

  function Step(name: Name): nat {
    match name
    case TryBegin(_) => 0
    case TryEnd(_) => 1
    case HandlerBegin(_, c) => 2 + 2 * c
    case HandlerEnd(_, c) => 3 + 2 * c
    case Jump(_) => 0
  }

  /** Every name so far was made up before step s of try block t, and none for a jump. */
  ghost predicate Older(table: map<nat, Name>, t: nat, s: nat) {
    forall i :: i in table ==>
      !table[i].Jump? && (Block(table[i]) < t || (Block(table[i]) == t && Step(table[i]) < s))
  }

  lemma {:induction false} NextName(table: map<nat, Name>, t: nat, s: nat, name: Name, i: nat)
    requires Older(table, t, s) && !name.Jump? && Block(name) == t && Step(name) == s
    ensures name !in table.Values
    ensures Older(table, t, s + 1) && Older(table[i := name], t, s + 1)
  {
    forall j | j in table ensures table[j] != name {
    }
  }

  // ---------- exceptions ----------

  datatype Handler = Handler(handlerPc: nat, codeSize: nat)
  datatype Try = Try(startPc: nat, length: nat, handlers: seq<Handler>)

  /** What the disassembler says about one handler; an end that is not given has no label. */
  datatype CatchBlock = CatchBlock(tryBegin: Name, tryEnd: Name, catchBegin: Name, catchEnd: Option<Name>)

  ghost predicate IsStart(code: Code, address: nat) {
    exists k: nat :: Start(code, k) == address
  }

  /** Label `name` leads to the instruction at an address. */
  ghost predicate Leads(code: Code, table: map<nat, Name>, name: Name, address: nat) {
    exists k: nat :: k in table && table[k] == name && Start(code, k) == address
  }

  /** Some label is for the end of the code, where there is no instruction. */
  ghost predicate HasEnd(code: Code, table: map<nat, Name>) {
    exists k: nat :: k in table && Start(code, k) == code.length
  }

  /** More labels, the old ones kept; none is behind the end. */
  ghost predicate Extends(code: Code, table: map<nat, Name>, more: map<nat, Name>) {
    && Distinct(table) && Distinct(more)
    && (forall k :: k in table ==> k in more && more[k] == table[k])
    && (forall k :: k in more ==> k in table || Start(code, k) <= code.length)
  }

  lemma {:induction false} LeadsStill(code: Code, table: map<nat, Name>, more: map<nat, Name>, name: Name, address: nat)
    requires Extends(code, table, more) && Leads(code, table, name, address)
    ensures Leads(code, more, name, address)
  {
    var k: nat :| k in table && table[k] == name && Start(code, k) == address;
    assert k in more && more[k] == name;
  }

  lemma {:induction false} ExtendsMore(code: Code, a: map<nat, Name>, b: map<nat, Name>, c: map<nat, Name>)
    requires Extends(code, a, b) && Extends(code, b, c)
    ensures Extends(code, a, c)
  {
  }

  /** The label of the instruction at an address below `last`. */
  method Locate(code: Code, address: nat, last: nat, table: map<nat, Name>, name: Name)
    returns (ok: bool, more: map<nat, Name>, used: Name)
    requires Advances(code) && Distinct(table) && name !in table.Values && last <= code.length + 1
    ensures ok <==> address < last && IsStart(code, address)
    ensures Extends(code, table, more) && (more == table || exists i: nat :: i !in table && more == table[i := name])
    ensures ok ==> Leads(code, more, used, address)
    ensures HasEnd(code, more) <==> HasEnd(code, table) || (ok && address == code.length)
  {
    hide Distinct, Advances, HasEnd;
    var n := InstructionNumber(code, address);
    if address >= last || n.None? {
      return false, table, name;
    }
    ok := true;
    more, used := Labelled(table, n.value, name);
    assert n.value in more && more[n.value] == used && Start(code, n.value) == address;
    EndLabel(code, table, n.value, name);
  }

  lemma {:induction false} EndLabel(code: Code, table: map<nat, Name>, i: nat, name: Name)
    ensures
      var more := if i in table then table else table[i := name];
      HasEnd(code, more) <==> HasEnd(code, table) || Start(code, i) == code.length
  {
    var more := if i in table then table else table[i := name];
    if HasEnd(code, table) {
      var k: nat :| k in table && Start(code, k) == code.length;
      assert k in more;
    }
    if Start(code, i) == code.length {
      assert i in more;
    }
  }

  /** The range of a try block is between instructions, and not behind the end. */
  ghost predicate TryOk(code: Code, tb: Try) {
    && tb.startPc < code.length && tb.startPc + tb.length <= code.length
    && IsStart(code, tb.startPc) && IsStart(code, tb.startPc + tb.length)
  }

  method LocateTryBlock(code: Code, tb: Try, t: nat, table: map<nat, Name>)
    returns (ok: bool, more: map<nat, Name>, begin: Name, end: Name)
    requires Advances(code) && Distinct(table) && Older(table, t, 0)
    ensures Extends(code, table, more) && Older(more, t, 2)
    ensures ok <==> TryOk(code, tb)
    ensures ok ==> Leads(code, more, begin, tb.startPc) && Leads(code, more, end, tb.startPc + tb.length)
    ensures HasEnd(code, more) <==> HasEnd(code, table) || (ok && tb.startPc + tb.length == code.length)
  {
    hide Distinct, Advances, Older, Leads, Extends, IsStart, HasEnd;
    NamesFresh(table, t, 0, TryBegin(t));
    begin, end := TryBegin(t), TryEnd(t);
    ok, more, begin := Locate(code, tb.startPc, code.length, table, TryBegin(t));
    Aged(table, more, t, 0, TryBegin(t));
    SameDistinct(code, table, more);
    NamesFresh(more, t, 1, TryEnd(t));
    Aged(more, more, t, 1, TryEnd(t));
    if !ok {
      return;
    }
    ghost var before := more;
    ok, more, end := Locate(code, tb.startPc + tb.length, code.length + 1, more, TryEnd(t));
    Aged(before, more, t, 1, TryEnd(t));
    ExtendsMore(code, table, before, more);
    LeadsStill(code, before, more, begin, tb.startPc);
  }

  lemma {:induction false} SameDistinct(code: Code, table: map<nat, Name>, more: map<nat, Name>)
    requires Extends(code, table, more)
    ensures Distinct(more)
  {
  }

  lemma {:induction false} NamesFresh(table: map<nat, Name>, t: nat, s: nat, name: Name)
    requires Older(table, t, s) && !name.Jump? && Block(name) == t && Step(name) == s
    ensures name !in table.Values
  {
    NextName(table, t, s, name, 0);
  }

  lemma {:induction false} Aged(table: map<nat, Name>, more: map<nat, Name>, t: nat, s: nat, name: Name)
    requires Older(table, t, s) && !name.Jump? && Block(name) == t && Step(name) == s
    requires more == table || exists i: nat :: i !in table && more == table[i := name]
    ensures Older(more, t, s + 1)
  {
    NextName(table, t, s, name, 0);
  }

  method LocateCatchBlock(code: Code, h: Handler, t: nat, c: nat, table: map<nat, Name>)
    returns (ok: bool, more: map<nat, Name>, begin: Name, end: Option<Name>)
    requires Advances(code) && Distinct(table) && Older(table, t, 2 + 2 * c)
    ensures Extends(code, table, more) && Older(more, t, 4 + 2 * c)
    ensures ok <==>
      h.handlerPc + h.codeSize < code.length && IsStart(code, h.handlerPc) && IsStart(code, h.handlerPc + h.codeSize)
    ensures ok ==> Leads(code, more, begin, h.handlerPc) && (end.Some? <==> h.codeSize > 0)
    ensures ok && end.Some? ==> Leads(code, more, end.value, h.handlerPc + h.codeSize)
    ensures HasEnd(code, more) <==> HasEnd(code, table)
  {
    hide Distinct, Advances, Older, Leads, Extends, IsStart, HasEnd;
    NamesFresh(table, t, 2 + 2 * c, HandlerBegin(t, c));
    end := None;
    ok, more, begin := Locate(code, h.handlerPc, code.length, table, HandlerBegin(t, c));
    Aged(table, more, t, 2 + 2 * c, HandlerBegin(t, c));
    SameDistinct(code, table, more);
    NamesFresh(more, t, 3 + 2 * c, HandlerEnd(t, c));
    Aged(more, more, t, 3 + 2 * c, HandlerEnd(t, c));
    if !ok {
      return;
    }
    ghost var before := more;
    var found, next, used := Locate(code, h.handlerPc + h.codeSize, code.length, more, HandlerEnd(t, c));
    Aged(before, next, t, 3 + 2 * c, HandlerEnd(t, c));
    ok := found;
    if found && h.codeSize != 0 {
      more, end := next, Some(used);
      ExtendsMore(code, table, before, more);
      LeadsStill(code, before, more, begin, h.handlerPc);
    }
  }

  /** A handler as the disassembler names it, for a try block and one of its handlers. */
  ghost predicate Describes(code: Code, table: map<nat, Name>, b: CatchBlock, tb: Try, h: Handler) {
    && Leads(code, table, b.tryBegin, tb.startPc) && Leads(code, table, b.tryEnd, tb.startPc + tb.length)
    && Leads(code, table, b.catchBegin, h.handlerPc)
    && (b.catchEnd.Some? <==> h.codeSize > 0)
    && (b.catchEnd.Some? ==> Leads(code, table, b.catchEnd.value, h.handlerPc + h.codeSize))
  }

  /** A handler and the try block it belongs to. */
  datatype Guard = Guard(tb: Try, h: Handler)

  /** Each block in the list describes its handler. */
  ghost predicate AllDescribe(code: Code, table: map<nat, Name>, gs: seq<Guard>, blocks: seq<CatchBlock>) {
    |blocks| == |gs| && forall i :: 0 <= i < |blocks| ==> Describes(code, table, blocks[i], gs[i].tb, gs[i].h)
  }

  /** The code of a handler is between instructions, and ends before the code does. */
  ghost predicate HandlerOk(code: Code, h: Handler) {
    h.handlerPc + h.codeSize < code.length && IsStart(code, h.handlerPc) && IsStart(code, h.handlerPc + h.codeSize)
  }

  /** Of the first n handlers of a try block those up to the first one that is not right. */
  ghost function GoodHandlers(code: Code, tb: Try, n: nat): (r: seq<Guard>)
    requires n <= |tb.handlers|
    ensures |r| <= n
  {
    if n == 0 then []
    else
      var before := GoodHandlers(code, tb, n - 1);
      if |before| == n - 1 && HandlerOk(code, tb.handlers[n - 1]) then before + [Guard(tb, tb.handlers[n - 1])]
      else before
  }

  lemma {:induction false} BadHandlerEnds(code: Code, tb: Try, c: nat, n: nat)
    requires c < n <= |tb.handlers| && !HandlerOk(code, tb.handlers[c])
    ensures GoodHandlers(code, tb, n) == GoodHandlers(code, tb, c)
  {
    hide HandlerOk;
    if c + 1 < n {
      BadHandlerEnds(code, tb, c, n - 1);
    }
  }

  lemma {:induction false} DescribeStill(
    code: Code, table: map<nat, Name>, more: map<nat, Name>, gs: seq<Guard>, blocks: seq<CatchBlock>)
    requires Extends(code, table, more) && AllDescribe(code, table, gs, blocks)
    ensures AllDescribe(code, more, gs, blocks)
  {
    hide Leads, Extends;
    forall i | 0 <= i < |blocks| ensures Describes(code, more, blocks[i], gs[i].tb, gs[i].h) {
      var b, tb, h := blocks[i], gs[i].tb, gs[i].h;
      assert Describes(code, table, b, tb, h);
      LeadsStill(code, table, more, b.tryBegin, tb.startPc);
      LeadsStill(code, table, more, b.tryEnd, tb.startPc + tb.length);
      LeadsStill(code, table, more, b.catchBegin, h.handlerPc);
      if b.catchEnd.Some? {
        LeadsStill(code, table, more, b.catchEnd.value, h.handlerPc + h.codeSize);
      }
    }
  }

  /** The handlers of one try block; the first bad one ends the list. */
  method GetHandlers(code: Code, tries: seq<Try>, t: nat, begin: Name, end: Name, table: map<nat, Name>)
    returns (more: map<nat, Name>, blocks: seq<CatchBlock>)
    requires Advances(code) && Distinct(table) && t < |tries| && Older(table, t, 2)
    requires Leads(code, table, begin, tries[t].startPc) && Leads(code, table, end, tries[t].startPc + tries[t].length)
    ensures Extends(code, table, more) && Older(more, t + 1, 0)
    ensures AllDescribe(code, more, GoodHandlers(code, tries[t], |tries[t].handlers|), blocks)
    ensures HasEnd(code, more) <==> HasEnd(code, table)
  {
    hide Distinct, Advances, Older, Leads, Extends, IsStart, AllDescribe, HasEnd, Describes;
    more, blocks := table, [];
    Unchanged(code, table);
    DescribeNone(code, table);
    var hs := tries[t].handlers;
    for c := 0 to |hs|
      invariant Extends(code, table, more) && Older(more, t, 2 + 2 * c)
      invariant AllDescribe(code, more, GoodHandlers(code, tries[t], c), blocks)
        && |GoodHandlers(code, tries[t], c)| == c
      invariant HasEnd(code, more) <==> HasEnd(code, table)
    {
      SameDistinct(code, table, more);
      ghost var before, good := more, GoodHandlers(code, tries[t], c);
      var ok, first, last;
      ok, more, first, last := LocateCatchBlock(code, hs[c], t, c, more);
      ExtendsMore(code, table, before, more);
      DescribeStill(code, before, more, good, blocks);
      if !ok {
        BadHandlerEnds(code, tries[t], c, |hs|);
        OlderBlock(more, t, 4 + 2 * c);
        return;
      }
      LeadsStill(code, table, more, begin, tries[t].startPc);
      LeadsStill(code, table, more, end, tries[t].startPc + tries[t].length);
      var b := CatchBlock(begin, end, first, last);
      DescribeOne(code, more, good, blocks, b, tries[t], hs[c]);
      blocks := blocks + [b];
    }
    OlderBlock(more, t, 2 + 2 * |hs|);
  }

  lemma {:induction false} Unchanged(code: Code, table: map<nat, Name>)
    requires Distinct(table)
    ensures Extends(code, table, table)
  {
  }

  lemma {:induction false} DescribeNone(code: Code, table: map<nat, Name>)
    ensures AllDescribe(code, table, [], [])
  {
  }

  lemma {:induction false} DescribeOne(
    code: Code, table: map<nat, Name>, gs: seq<Guard>, blocks: seq<CatchBlock>, b: CatchBlock, tb: Try, h: Handler)
    requires AllDescribe(code, table, gs, blocks)
    requires Leads(code, table, b.tryBegin, tb.startPc) && Leads(code, table, b.tryEnd, tb.startPc + tb.length)
    requires Leads(code, table, b.catchBegin, h.handlerPc) && (b.catchEnd.Some? <==> h.codeSize > 0)
    requires b.catchEnd.Some? ==> Leads(code, table, b.catchEnd.value, h.handlerPc + h.codeSize)
    ensures AllDescribe(code, table, gs + [Guard(tb, h)], blocks + [b])
  {
    hide Leads;
    assert Describes(code, table, b, tb, h);
  }

  lemma {:induction false} OlderBlock(table: map<nat, Name>, t: nat, s: nat)
    requires Older(table, t, s)
    ensures Older(table, t + 1, 0)
  {
  }

  lemma {:induction false} NoLabels(t: nat)
    ensures Older(map[], t, 0) && Distinct(map[])
  {
  }

  /** Some try range that is looked at ends with the code: there is no instruction there to carry its label. */
  ghost predicate EndsWithCode(code: Code, tries: seq<Try>, n: nat)
    requires n <= |tries|
  {
    exists t :: 0 <= t < n && LookedAt(code, tries, t) && TryOk(code, tries[t])
      && tries[t].startPc + tries[t].length == code.length
  }

  /** Try blocks are looked at up to the first one that is not right. */
  ghost predicate LookedAt(code: Code, tries: seq<Try>, t: nat) {
    t <= |tries| && forall i :: 0 <= i < t ==> TryOk(code, tries[i])
  }

  lemma {:induction false} LookFurther(code: Code, tries: seq<Try>, t: nat)
    requires t < |tries| && LookedAt(code, tries, t)
    ensures EndsWithCode(code, tries, t + 1) <==>
      EndsWithCode(code, tries, t) || (TryOk(code, tries[t]) && tries[t].startPc + tries[t].length == code.length)
    ensures TryOk(code, tries[t]) ==> LookedAt(code, tries, t + 1)
  {
    hide TryOk;
    if EndsWithCode(code, tries, t + 1) {
      var i :| 0 <= i < t + 1 && LookedAt(code, tries, i) && TryOk(code, tries[i])
        && tries[i].startPc + tries[i].length == code.length;
      assert i < t ==> EndsWithCode(code, tries, t);
    }
    if EndsWithCode(code, tries, t) {
      var i :| 0 <= i < t && LookedAt(code, tries, i) && TryOk(code, tries[i])
        && tries[i].startPc + tries[i].length == code.length;
      assert i < t + 1;
    }
    assert t < t + 1;
  }

  /** After a wrong try block no other one is looked at. */
  lemma {:induction false} LookNoFurther(code: Code, tries: seq<Try>, t: nat)
    requires t < |tries| && LookedAt(code, tries, t) && !TryOk(code, tries[t])
    ensures EndsWithCode(code, tries, |tries|) <==> EndsWithCode(code, tries, t)
  {
    hide TryOk;
    if EndsWithCode(code, tries, |tries|) {
      var i :| 0 <= i < |tries| && LookedAt(code, tries, i) && TryOk(code, tries[i])
        && tries[i].startPc + tries[i].length == code.length;
      assert i < t;
    }
    if EndsWithCode(code, tries, t) {
      var i :| 0 <= i < t && LookedAt(code, tries, i) && TryOk(code, tries[i])
        && tries[i].startPc + tries[i].length == code.length;
      assert i < |tries|;
    }
  }

  lemma {:induction false} NoEnd(code: Code, tries: seq<Try>)
    ensures !HasEnd(code, map[]) && !EndsWithCode(code, tries, 0) && LookedAt(code, tries, 0)
  {
  }

  /** The right handlers of the try blocks that are looked at, in order. */
  ghost function Guards(code: Code, tries: seq<Try>, n: nat): seq<Guard>
    requires n <= |tries|
  {
    if n == 0 then []
    else
      Guards(code, tries, n - 1)
      + if LookedAt(code, tries, n) then GoodHandlers(code, tries[n - 1], |tries[n - 1].handlers|) else []
  }

  lemma {:induction false} BadTryEnds(code: Code, tries: seq<Try>, t: nat, n: nat)
    requires t < n <= |tries| && !TryOk(code, tries[t])
    ensures Guards(code, tries, n) == Guards(code, tries, t)
  {
    hide TryOk;
    if t + 1 < n {
      BadTryEnds(code, tries, t, n - 1);
    }
  }

  /** The blocks describe, in order, exactly the handlers up to the first bad one of each try block looked at. */
  method GetExceptions(code: Code, tries: seq<Try>) returns (table: map<nat, Name>, blocks: seq<CatchBlock>)
    requires Advances(code)
    ensures Extends(code, map[], table) && Older(table, |tries|, 0)
    ensures AllDescribe(code, table, Guards(code, tries, |tries|), blocks)
    ensures HasEnd(code, table) <==> EndsWithCode(code, tries, |tries|)
  {
    hide Distinct, Advances, Older, Leads, Extends, IsStart, AllDescribe, HasEnd, EndsWithCode, TryOk, LookedAt,
      GoodHandlers;
    table, blocks := map[], [];
    NoLabels(0);
    NoEnd(code, tries);
    Unchanged(code, table);
    DescribeNone(code, table);
    for t := 0 to |tries|
      invariant Extends(code, map[], table) && Older(table, t, 0)
      invariant AllDescribe(code, table, Guards(code, tries, t), blocks)
      invariant LookedAt(code, tries, t) && (HasEnd(code, table) <==> EndsWithCode(code, tries, t))
    {
      LookFurther(code, tries, t);
      SameDistinct(code, map[], table);
      ghost var before, gs := table, Guards(code, tries, t);
      var ok, begin, end;
      ok, table, begin, end := LocateTryBlock(code, tries[t], t, table);
      ExtendsMore(code, map[], before, table);
      DescribeStill(code, before, table, gs, blocks);
      SameDistinct(code, before, table);
      if !ok {
        LookNoFurther(code, tries, t);
        BadTryEnds(code, tries, t, |tries|);
        OlderAll(table, t, 2, |tries|);
        return;
      }
      ghost var mid := table;
      var more;
      table, more := GetHandlers(code, tries, t, begin, end, table);
      ExtendsMore(code, map[], mid, table);
      DescribeStill(code, mid, table, gs, blocks);
      DescribeJoin(code, table, gs, blocks, GoodHandlers(code, tries[t], |tries[t].handlers|), more);
      blocks := blocks + more;
    }
  }

  lemma {:induction false} OlderAll(table: map<nat, Name>, t: nat, s: nat, n: nat)
    requires Older(table, t, s) && t < n
    ensures Older(table, n, 0)
  {
  }

  lemma {:induction false} DescribeJoin(
    code: Code, table: map<nat, Name>, gs: seq<Guard>, a: seq<CatchBlock>, hs: seq<Guard>, b: seq<CatchBlock>)
    requires AllDescribe(code, table, gs, a) && AllDescribe(code, table, hs, b)
    ensures AllDescribe(code, table, gs + hs, a + b)
  {
    hide Describes;
  }

  /** It does happen: a try range over the whole of a one-instruction code. */
  lemma {:induction false} WholeCodeProtected()
    ensures
      var code := Code((p: nat) => 1, (p: nat) => None, 1);
      Advances(code) && EndsWithCode(code, [Try(0, 1, [])], 1)
  {
    var code := Code((p: nat) => 1, (p: nat) => None, 1);
    var tries := [Try(0, 1, [])];
    assert Start(code, 0) == 0;
    assert Start(code, 1) == 1;
    assert TryOk(code, tries[0]);
    assert LookedAt(code, tries, 0);
  }

  // ---------- instructions ----------

  /** A disassembled instruction: its own label, and the label it jumps to. */
  datatype Ins = Ins(lbl: Option<Name>, target: Option<Name>)

  /** The address a jump leads to, if it is that of an instruction inside the code. */
  ghost predicate JumpsTo(code: Code, m: nat, k: nat) {
    var p := Start(code, m);
    code.jump(p).Some? && Start(code, k) == p + code.jump(p).value && Start(code, k) < code.length
  }

  ghost predicate TargetOk(code: Code, table: map<nat, Name>, m: nat, target: Option<Name>) {
    && (target.Some? <==> exists k: nat :: JumpsTo(code, m, k))
    && (forall k: nat :: JumpsTo(code, m, k) ==> k in table && target == Some(table[k]))
  }

  /** Names of jumps are numbered by the size of the table. */
  ghost predicate JumpsNumbered(table: map<nat, Name>) {
    forall i :: i in table && table[i].Jump? ==> table[i].n < |table|
  }

  lemma {:induction false} NextJump(table: map<nat, Name>, i: nat)
    requires JumpsNumbered(table) && i !in table
    ensures Jump(|table|) !in table.Values && JumpsNumbered(table[i := Jump(|table|)])
  {
    forall j | j in table ensures table[j] != Jump(|table|) {
    }
    assert |table[i := Jump(|table|)]| == |table| + 1;
  }

  /** The label of a jump: that of the instruction it leads to, made up if needed. */
  method LabelJump(
    code: Code, p: nat, ghost m: nat, table: map<nat, Name>) returns (more: map<nat, Name>, target: Option<Name>)
    requires Advances(code) && Distinct(table) && JumpsNumbered(table) && p == Start(code, m)
    ensures Extends(code, table, more) && JumpsNumbered(more)
    ensures TargetOk(code, more, m, target)
    ensures HasEnd(code, more) <==> HasEnd(code, table)
  {
    hide Distinct, Advances, JumpsNumbered, HasEnd;
    more, target := table, None;
    Unchanged(code, table);
    if code.jump(p).None? {
      return;
    }
    var address := p + code.jump(p).value;
    if address >= code.length {
      return;
    }
    var n := InstructionNumber(code, address);
    if n.None? {
      return;
    }
    OnlyOne(code, n.value);
    if n.value !in table {
      NextJump(table, n.value);
      NewIsDistinct(table, n.value, Jump(|table|));
      more := table[n.value := Jump(|table|)];
      EndLabel(code, table, n.value, Jump(|table|));
    }
    target := Some(more[n.value]);
    assert JumpsTo(code, m, n.value);
  }

  lemma {:induction false} OnlyOne(code: Code, n: nat)
    requires Advances(code)
    ensures forall k: nat :: Start(code, k) == Start(code, n) ==> k == n
  {
    forall k: nat | Start(code, k) == Start(code, n) ensures k == n {
      StartsDiffer(code, k, n);
    }
  }

  lemma {:induction false} TargetStill(
    code: Code, table: map<nat, Name>, more: map<nat, Name>, m: nat, target: Option<Name>)
    requires Extends(code, table, more) && TargetOk(code, table, m, target)
    ensures TargetOk(code, more, m, target)
  {
    hide JumpsTo, Distinct;
  }

  /**
    The disassembled code: one entry for each instruction that starts before the end. All labels find an
    instruction if and only if no try range ends with the code; then each entry has the label that the
    table gives it. Each jump into the code names the label of the instruction it leads to.
   */
  method GetInstructions(code: Code, tries: seq<Try>)
    returns (inBounds: bool, ins: seq<Ins>, table: map<nat, Name>, blocks: seq<CatchBlock>)
    requires Advances(code)
    ensures Counts(code, |ins|) && Distinct(table)
    ensures inBounds <==> !EndsWithCode(code, tries, |tries|)
    ensures inBounds <==> forall k :: k in table ==> k < |ins|
    ensures inBounds ==> forall k :: 0 <= k < |ins| ==> ins[k].lbl == if k in table then Some(table[k]) else None
    ensures forall m :: 0 <= m < |ins| ==> TargetOk(code, table, m, ins[m].target)
    ensures AllDescribe(code, table, Guards(code, tries, |tries|), blocks)
  {
    hide Distinct, Advances, Older, Extends, AllDescribe, JumpsNumbered, TargetOk, EndsWithCode, HasEnd, Guards;
    table, blocks := GetExceptions(code, tries);
    SameDistinct(code, map[], table);
    NoJumps(table, |tries|, 0);
    ins := [];
    var p := 0;
    while p < code.length
      invariant p == Start(code, |ins|) && (|ins| > 0 ==> Start(code, |ins| - 1) < code.length)
      invariant Extends(code, map[], table) && Distinct(table) && JumpsNumbered(table)
      invariant forall m :: 0 <= m < |ins| ==> ins[m].lbl == None && TargetOk(code, table, m, ins[m].target)
      invariant AllDescribe(code, table, Guards(code, tries, |tries|), blocks)
      invariant HasEnd(code, table) <==> EndsWithCode(code, tries, |tries|)
      decreases code.length - p
    {
      ghost var before := table;
      var target;
      table, target := LabelJump(code, p, |ins|, table);
      ExtendsMore(code, map[], before, table);
      SameDistinct(code, before, table);
      DescribeStill(code, before, table, Guards(code, tries, |tries|), blocks);
      forall m | 0 <= m < |ins| ensures TargetOk(code, table, m, ins[m].target) {
        TargetStill(code, before, table, m, ins[m].target);
      }
      ins := ins + [Ins(None, target)];
      Forward(code, p);
      p := p + code.size(p);
    }
    LabelsInside(code, table, |ins|);
    inBounds := forall k | k in table.Keys :: k < |ins|;
    if inBounds {
      ins := SetLabels(ins, table);
    }
  }

  lemma {:induction false} Forward(code: Code, p: nat)
    requires Advances(code)
    ensures code.size(p) > 0
  {
  }

  lemma {:induction false} NoJumps(table: map<nat, Name>, t: nat, s: nat)
    requires Older(table, t, s)
    ensures JumpsNumbered(table)
  {
  }

  lemma {:induction false} LabelsInside(code: Code, table: map<nat, Name>, n: nat)
    requires Advances(code) && Extends(code, map[], table) && Counts(code, n)
    ensures HasEnd(code, table) <==> exists k :: k in table && k >= n
  {
    if HasEnd(code, table) {
      var k: nat :| k in table && Start(code, k) == code.length;
      if k < n - 1 {
        StartsGrow(code, k, n - 1);
      }
      assert k >= n;
    }
    forall k: nat | k in table && k >= n ensures Start(code, k) == code.length {
      if n < k {
        StartsGrow(code, n, k);
      }
    }
  }

  method SetLabels(ins: seq<Ins>, table: map<nat, Name>) returns (r: seq<Ins>)
    requires (forall k :: k in table ==> k < |ins|) && forall k :: 0 <= k < |ins| ==> ins[k].lbl == None
    ensures |r| == |ins|
    ensures forall k :: 0 <= k < |ins| ==> r[k] == ins[k].(lbl := if k in table then Some(table[k]) else None)
  {
    r := ins;
    var left := table.Keys;
    while left != {}
      invariant left <= table.Keys && |r| == |ins|
      invariant forall k :: 0 <= k < |ins| ==>
        r[k] == ins[k].(lbl := if k in table && k !in left then Some(table[k]) else None)
      decreases |left|
    {
      var k :| k in left;
      r := r[k := r[k].(lbl := Some(table[k]))];
      left := left - {k};
    }
  }

  /** A jump into the code is to the one instruction that carries its label. */
  lemma {:induction false} JumpIsFaithful(code: Code, ins: seq<Ins>, table: map<nat, Name>, m: nat, k: nat, i: nat)
    requires Advances(code) && Counts(code, |ins|) && Distinct(table)
    requires forall j :: 0 <= j < |ins| ==> ins[j].lbl == if j in table then Some(table[j]) else None
    requires m < |ins| && TargetOk(code, table, m, ins[m].target) && JumpsTo(code, m, k) && i < |ins|
    ensures ins[m].target.Some?
    ensures ins[i].lbl == ins[m].target <==> i == k
  {
  }

  // ---------- names as text ----------

  function Digits(n: nat): (s: string)
    ensures |s| > 0 && forall i :: 0 <= i < |s| ==> '0' <= s[i] <= '9'
  {
    var d := ['0' + (n % 10) as char];
    if n < 10 then d else Digits(n / 10) + d
  }

  function Text(name: Name): string {
    match name
    case TryBegin(t) => "try_begin_label_" + Digits(t)
    case TryEnd(t) => "try_end_label_" + Digits(t)
    case HandlerBegin(t, c) => "handler_begin_label_" + (Digits(t) + "_" + Digits(c))
    case HandlerEnd(t, c) => "handler_end_label_" + (Digits(t) + "_" + Digits(c))
    case Jump(n) => "jump_label_" + Digits(n)
  }

  lemma {:induction false} DigitsDiffer(a: nat, b: nat)
    requires Digits(a) == Digits(b)
    ensures a == b
  {
    var s, t := Digits(a), Digits(b);
    assert s[|s| - 1] == t[|t| - 1];
    assert '0' + (a % 10) as char == '0' + (b % 10) as char;
    if a >= 10 && b >= 10 {
      assert s[..|s| - 1] == Digits(a / 10) && t[..|t| - 1] == Digits(b / 10);
      DigitsDiffer(a / 10, b / 10);
    }
  }

  lemma {:induction false} PairDiffers(a: nat, b: nat, c: nat, d: nat)
    requires Digits(a) + "_" + Digits(b) == Digits(c) + "_" + Digits(d)
    ensures a == c && b == d
  {
    var x, y := Digits(a) + "_" + Digits(b), Digits(c) + "_" + Digits(d);
    var i, j := |Digits(a)|, |Digits(c)|;
    assert x[i] == '_' && y[j] == '_';
    forall k | 0 <= k < i ensures x[k] == Digits(a)[k] != '_' {
    }
    forall k | 0 <= k < j ensures y[k] == Digits(c)[k] != '_' {
    }
    assert i == j;
    assert x[..i] == Digits(a) && y[..j] == Digits(c);
    assert x[i + 1..] == Digits(b) && y[j + 1..] == Digits(d);
    DigitsDiffer(a, c);
    DigitsDiffer(b, d);
  }

  lemma {:induction false} SameRest(p: string, a: string, b: string)
    requires p + a == p + b
    ensures a == b
  {
    assert a == (p + a)[|p|..] && b == (p + b)[|p|..];
  }

  lemma {:induction false} KindShows(name: Name)
    ensures |Text(name)| > 8
    ensures name.TryBegin? ==> Text(name)[0] == 't' && Text(name)[4] == 'b'
    ensures name.TryEnd? ==> Text(name)[0] == 't' && Text(name)[4] == 'e'
    ensures name.HandlerBegin? ==> Text(name)[0] == 'h' && Text(name)[8] == 'b'
    ensures name.HandlerEnd? ==> Text(name)[0] == 'h' && Text(name)[8] == 'e'
    ensures name.Jump? ==> Text(name)[0] == 'j'
  {
    hide Digits;
  }

  /** Different names are different as text. */
  lemma {:induction false} TextDiffers(a: Name, b: Name)
    requires Text(a) == Text(b)
    ensures a == b
  {
    hide Digits;
    KindShows(a);
    KindShows(b);
    match a
    case TryBegin(t) =>
      SameRest("try_begin_label_", Digits(t), Digits(b.t));
      DigitsDiffer(t, b.t);
    case TryEnd(t) =>
      SameRest("try_end_label_", Digits(t), Digits(b.t));
      DigitsDiffer(t, b.t);
    case HandlerBegin(t, c) =>
      SameRest("handler_begin_label_", Digits(t) + "_" + Digits(c), Digits(b.t) + "_" + Digits(b.c));
      PairDiffers(t, c, b.t, b.c);
    case HandlerEnd(t, c) =>
      SameRest("handler_end_label_", Digits(t) + "_" + Digits(c), Digits(b.t) + "_" + Digits(b.c));
      PairDiffers(t, c, b.t, b.c);
    case Jump(n) =>
      SameRest("jump_label_", Digits(n), Digits(b.n));
      DigitsDiffer(n, b.n);
  }
}
