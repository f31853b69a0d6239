/** Fixed record layouts: an ordered list of fields, each at the offset where
    the previous one ends. A C compiler lays out a struct the same way exactly
    when every field already sits at a multiple of its alignment and the total
    is a multiple of the largest alignment, so that no padding is inserted. */
module Layout {

  /** A field of a fixed record: an unsigned integer of 2 or 4 bytes, or a
      character array that no byte-order conversion ever touches. */
  datatype Field = U16 | U32 | Chars(len: nat)

  function Width(f: Field): nat
  {
    match f
    case U16 => 2
    case U32 => 4
    case Chars(n) => n
  }

  /** Alignment a C compiler gives the field's type. */
  function Alignment(f: Field): nat
  {
    match f
    case U16 => 2
    case U32 => 4
    case Chars(_) => 1
  }

  /** Offset of field `i`: the widths of the fields before it, summed. */
  function Offset(layout: seq<Field>, i: nat): nat
    requires i <= |layout|
  {
    if i == 0 then 0 else Offset(layout, i - 1) + Width(layout[i - 1])
  }

  /** Total byte width of the fields. */
  function Size(layout: seq<Field>): nat
  {
    Offset(layout, |layout|)
  }

  /** Largest alignment of any field (1 for an empty layout): an upper bound
      on every field's alignment that some field attains. */
  function MaxAlignment(layout: seq<Field>): (a: nat)
    ensures a >= 1
    ensures forall i :: 0 <= i < |layout| ==> Alignment(layout[i]) <= a
    ensures a == 1 || exists i :: 0 <= i < |layout| && Alignment(layout[i]) == a
  {
    if |layout| == 0 then 1
    else
      var rest := MaxAlignment(layout[1..]);
      if Alignment(layout[0]) > rest then Alignment(layout[0])
      else rest
  }

  /** No padding: every field is naturally aligned where it falls, and the
      size is a multiple of the strictest alignment, so `sizeof` of the
      corresponding struct equals Size. */
  predicate Packed(layout: seq<Field>)
  {
    && (forall i :: 0 <= i < |layout| ==> Offset(layout, i) % Alignment(layout[i]) == 0)
    && Size(layout) % MaxAlignment(layout) == 0
  }

  /** Offsets never decrease along the layout. */
  lemma {:induction false} OffsetMonotonic(layout: seq<Field>, i: nat, j: nat)
    requires i <= j <= |layout|
    ensures Offset(layout, i) <= Offset(layout, j)
    decreases j - i
  {
    if i < j {
      OffsetMonotonic(layout, i, j - 1);
    }
  }

  /** Every field lies wholly inside the record: a buffer of Size bytes holds
      all of it. */
  lemma {:induction false} FieldWithinRecord(layout: seq<Field>, i: nat)
    requires i < |layout|
    ensures Offset(layout, i) + Width(layout[i]) <= Size(layout)
  {
    assert Offset(layout, i + 1) == Offset(layout, i) + Width(layout[i]);
    OffsetMonotonic(layout, i + 1, |layout|);
  }

  /** Fields do not overlap: a later field starts no earlier than the end of
      an earlier one. */
  lemma {:induction false} FieldsDisjoint(layout: seq<Field>, i: nat, j: nat)
    requires i < j < |layout|
    ensures Offset(layout, i) + Width(layout[i]) <= Offset(layout, j)
  {
    assert Offset(layout, i + 1) == Offset(layout, i) + Width(layout[i]);
    OffsetMonotonic(layout, i + 1, j);
  }

  /** The bytes of field `i` in a buffer holding at least one record. */
  function FieldBytes(layout: seq<Field>, buf: seq<bv8>, i: nat): (r: seq<bv8>)
    requires i < |layout|
    requires Size(layout) <= |buf|
    ensures |r| == Width(layout[i])
  {
    FieldWithinRecord(layout, i);
    buf[Offset(layout, i) .. Offset(layout, i) + Width(layout[i])]
  }
}
