/**
  Relocation as a map on positions. Widening branches moves every position by the bytes inserted
  before it; positions never cross or merge, and the bytes of the other instructions are untouched.
 */
module Relocation {
  import opened Bytes
  import opened Isa
  import opened Layout

  lemma {:induction false} SizeVanishes(it: Item, form: Form)
    requires WellFormed(it)
    ensures Size(it, form) == 0 <==> Size(it, Keep) == 0
    ensures Size(it, Keep) <= Size(it, form)
  {
  }

  lemma {:induction false} GapVanishes(items: seq<Item>, forms: seq<Form>, j: nat, k: nat)
    requires AllWellFormed(items) && j <= k <= |items| == |forms|
    ensures Offset(items, forms, j) == Offset(items, forms, k)
            <==> Offset(items, AllKeep(|items|), j) == Offset(items, AllKeep(|items|), k)
    ensures Offset(items, AllKeep(|items|), k) - Offset(items, AllKeep(|items|), j)
            <= Offset(items, forms, k) - Offset(items, forms, j)
    decreases k
  {
    hide Size, WellFormed;
    if j < k {
      GapVanishes(items, forms, j, k - 1);
      SizeVanishes(items[k - 1], forms[k - 1]);
      OffsetMonotone(items, forms, j, k - 1);
      OffsetMonotone(items, AllKeep(|items|), j, k - 1);
    }
  }

  /**
    For any choice of forms, hence at every step of the pass, the new offset is a strictly increasing
    function of the original offset, and distances never shrink.
   */
  lemma {:induction false} RelocationMonotone(items: seq<Item>, forms: seq<Form>, j: nat, k: nat)
    requires AllWellFormed(items) && j <= |items| == |forms| && k <= |items|
    ensures var keep := AllKeep(|items|);
      && (Offset(items, keep, j) == Offset(items, keep, k) ==> Offset(items, forms, j) == Offset(items, forms, k))
      && (Offset(items, keep, j) < Offset(items, keep, k) ==>
            0 < Offset(items, keep, k) - Offset(items, keep, j) <= Offset(items, forms, k) - Offset(items, forms, j))
  {
    if j <= k {
      GapVanishes(items, forms, j, k);
    } else {
      GapVanishes(items, forms, k, j);
      OffsetMonotone(items, AllKeep(|items|), k, j);
    }
  }

  /** The bytes of the instructions that are not branches, in order. */
  function PlainBytes(items: seq<Item>, k: nat): seq<byte>
    requires k <= |items|
  {
    if k == 0 then [] else PlainBytes(items, k - 1) + if items[k - 1].Plain? then items[k - 1].bytes else []
  }

  /** `code` with the byte ranges of the branches cut out. */
  function Strip(code: seq<byte>, items: seq<Item>, forms: seq<Form>, k: nat): seq<byte>
    requires k <= |items| == |forms| && Offset(items, forms, k) <= |code|
  {
    if k == 0 then []
    else
      Strip(code, items, forms, k - 1)
      + if items[k - 1].Branch? then [] else code[Offset(items, forms, k - 1)..Offset(items, forms, k)]
  }

  /** Whatever the forms and offsets, cutting the branches out leaves the same bytes. */
  lemma {:induction false} OthersUntouched(items: seq<Item>, forms: seq<Form>, imms: seq<int>, k: nat)
    requires k <= |items| == |forms| == |imms|
    ensures Offset(items, forms, k) <= |Code(items, forms, imms, 0, |items|)|
    ensures Strip(Code(items, forms, imms, 0, |items|), items, forms, k) == PlainBytes(items, k)
  {
    hide Code, Encode, Size, Offset;
    OffsetZero(items, forms);
    CodeLength(items, forms, imms, 0, |items|);
    OffsetMonotone(items, forms, k, |items|);
    if k > 0 {
      OthersUntouched(items, forms, imms, k - 1);
      ItemBytes(items, forms, imms, k - 1);
      if !items[k - 1].Branch? {
        PlainEncoding(items[k - 1], forms[k - 1], imms[k - 1]);
      }
    }
  }

  lemma {:induction false} ItemBytes(items: seq<Item>, forms: seq<Form>, imms: seq<int>, i: nat)
    requires i < |items| == |forms| == |imms|
    ensures Offset(items, forms, i) <= Offset(items, forms, i + 1) <= |Code(items, forms, imms, 0, |items|)|
    ensures Code(items, forms, imms, 0, |items|)[Offset(items, forms, i)..Offset(items, forms, i + 1)]
         == Encode(items[i], forms[i], imms[i])
  {
    hide Encode, Code;
    CodeAround(items, forms, imms, i);
    CodeLength(items, forms, imms, 0, i);
    CodeLength(items, forms, imms, 0, |items|);
    OffsetMonotone(items, forms, i + 1, |items|);
  }
}
