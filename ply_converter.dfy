/**
 * The vertex-layout rewrite of the PLY converter (`ply_converter.py`): 45
 * four-byte `f_rest_i` fields are spliced into the vertex record right after
 * `f_dc_2`, the packed record must then be 248 bytes, and every original column
 * is copied into a zero-filled array of the new layout.
 *
 * A record layout is the list of `(name, byte size)` pairs of the numpy dtype
 * (`dtype.descr`); the vertex data is held column by column, one sequence of
 * values per field.
 */
module PlyConverter {
  import opened Wrappers

  /** One entry of `dtype.descr`: a field name and its size in bytes. */
  datatype Field = Field(name: string, size: nat)

  /** Why building the new layout raises. */
  datatype ConvertError =
    | MissingField(name: string)      // `list.index` raises ValueError
    | DuplicateField                  // `np.dtype` refuses a name that occurs twice
    | InvalidVertexSize(size: nat)    // the `assert` on `itemsize` fails

  /** `range(45)`: the number of new fields. */
  const RestCount: nat := 45

  /** `np.float32` takes four bytes. */
  const FloatSize: nat := 4

  /** The record size the converter insists on. */
  const TargetVertexSize: nat := 248

  /** The new fields go right after this one. */
  const SplitAfter: string := "f_dc_2"

  // ---------------------------------------------------------------------------
  // Field names
  // ---------------------------------------------------------------------------

  function Digit(d: nat): char
    requires d < 10
  {
    (48 + d) as char
  }

  /** `str(n)`: decimal digits, most significant first. */
  function Decimal(n: nat): (r: string)
    ensures 1 <= |r|
    ensures n >= 10 <==> |r| >= 2
    decreases n
  {
    if n < 10 then [Digit(n)] else Decimal(n / 10) + [Digit(n % 10)]
  }

  /** Distinct numbers print differently. */
  lemma {:induction false} DecimalInjective(a: nat, b: nat)
    requires Decimal(a) == Decimal(b)
    ensures a == b
    decreases a
  {
    var da, db := Decimal(a), Decimal(b);
    if a < 10 {
      assert b < 10;
      assert da[0] == Digit(a) && db[0] == Digit(b);
    } else {
      assert b >= 10;
      assert da[|da| - 1] == Digit(a % 10) && db[|db| - 1] == Digit(b % 10);
      assert da[..|da| - 1] == Decimal(a / 10);
      assert db[..|db| - 1] == Decimal(b / 10);
      DecimalInjective(a / 10, b / 10);
    }
  }

  /** `f'f_rest_{i}'`. */
  function RestName(i: nat): (r: string)
    ensures |r| >= 8
  {
    "f_rest_" + Decimal(i)
  }

  /** The new names are pairwise different. */
  lemma RestNameInjective(i: nat, j: nat)
    ensures RestName(i) == RestName(j) ==> i == j
  {
    if RestName(i) == RestName(j) {
      assert RestName(i)[7..] == Decimal(i);
      assert RestName(j)[7..] == Decimal(j);
      DecimalInjective(i, j);
    }
  }

  /** `[(f'f_rest_{i}', np.float32) for i in range(45)]`. */
  function RestFields(): (r: seq<Field>)
    ensures |r| == RestCount
    ensures forall i :: 0 <= i < RestCount ==> r[i] == Field(RestName(i), FloatSize)
  {
    seq(RestCount, i requires 0 <= i => Field(RestName(i), FloatSize))
  }

  // ---------------------------------------------------------------------------
  // Layouts
  // ---------------------------------------------------------------------------

  predicate DistinctNames(fields: seq<Field>) {
    forall i, j :: 0 <= i < j < |fields| ==> fields[i].name != fields[j].name
  }

  /** The first position from `i` on holding `name`, or `None`. */
  function FindFrom(fields: seq<Field>, name: string, i: nat): (r: Option<nat>)
    requires i <= |fields|
    ensures r.Some? ==> i <= r.value < |fields| && fields[r.value].name == name
    ensures r.Some? ==> forall k :: i <= k < r.value ==> fields[k].name != name
    ensures r.None? ==> forall k :: i <= k < |fields| ==> fields[k].name != name
    decreases |fields| - i
  {
    if i == |fields| then None
    else if fields[i].name == name then Some(i)
    else FindFrom(fields, name, i + 1)
  }

  /** `fields.index(name)`: the first position holding `name`, or `None` (ValueError). */
  function FieldIndex(fields: seq<Field>, name: string): (r: Option<nat>)
    ensures r.Some? ==> r.value < |fields| && fields[r.value].name == name
    ensures r.Some? ==> forall i :: 0 <= i < r.value ==> fields[i].name != name
    ensures r.None? ==> forall i :: 0 <= i < |fields| ==> fields[i].name != name
  {
    FindFrom(fields, name, 0)
  }

  /** In a layout with distinct names, looking a field up by its name finds that field. */
  lemma FieldIndexOfDistinct(fields: seq<Field>, p: nat)
    requires DistinctNames(fields) && p < |fields|
    ensures FieldIndex(fields, fields[p].name) == Some(p)
  {
    var r := FieldIndex(fields, fields[p].name);
    assert r.Some?;
  }

  /** `itemsize` of a packed (`align=False`) record: the sum of the field sizes. */
  function RecordSize(fields: seq<Field>): nat
    decreases |fields|
  {
    if |fields| == 0 then 0 else fields[0].size + RecordSize(fields[1..])
  }

  lemma {:induction false} RecordSizeConcat(a: seq<Field>, b: seq<Field>)
    ensures RecordSize(a + b) == RecordSize(a) + RecordSize(b)
    decreases |a|
  {
    if |a| > 0 {
      assert (a + b)[1..] == a[1..] + b;
      RecordSizeConcat(a[1..], b);
    } else {
      assert a + b == b;
    }
  }

  /** Where original field `j` lands when the new fields are inserted at `k`. */
  function NewPosition(j: nat, k: nat): nat {
    if j < k then j else j + RestCount
  }

  /**
   * `descr[:k] + new_rest_fields + descr[k:]`: every original field keeps its
   * order, moved up by 45 from position `k` on, and the new fields fill `k .. k + 45`.
   */
  function Splice(descr: seq<Field>, k: nat): (r: seq<Field>)
    requires k <= |descr|
    ensures |r| == |descr| + RestCount
    ensures forall j :: 0 <= j < |descr| ==> r[NewPosition(j, k)] == descr[j]
    ensures forall p :: k <= p < k + RestCount ==> r[p] == Field(RestName(p - k), FloatSize)
  {
    var r := descr[..k] + RestFields() + descr[k..];
    forall j | k <= j < |descr|
      ensures r[j + RestCount] == descr[j]
    {
      assert r[j + RestCount] == descr[k..][j - k];
    }
    r
  }

  /** A record of `n` four-byte fields is `4 * n` bytes. */
  lemma {:induction false} FloatRecordSize(fields: seq<Field>)
    requires forall i :: 0 <= i < |fields| ==> fields[i].size == FloatSize
    ensures RecordSize(fields) == FloatSize * |fields|
    decreases |fields|
  {
    if |fields| > 0 {
      FloatRecordSize(fields[1..]);
    }
  }

  /** The 45 new fields take 180 bytes. */
  lemma RestFieldsSize()
    ensures RecordSize(RestFields()) == RestCount * FloatSize
  {
    FloatRecordSize(RestFields());
  }

  /** Cutting a layout in two splits its size. */
  lemma RecordSizeSplit(descr: seq<Field>, k: nat)
    requires k <= |descr|
    ensures RecordSize(descr[..k]) + RecordSize(descr[k..]) == RecordSize(descr)
  {
    RecordSizeConcat(descr[..k], descr[k..]);
    assert descr[..k] + descr[k..] == descr;
  }

  /** The spliced record is 180 bytes longer. */
  lemma SpliceSize(descr: seq<Field>, k: nat)
    requires k <= |descr|
    ensures RecordSize(Splice(descr, k)) == RecordSize(descr) + RestCount * FloatSize
  {
    var pre, rest, post := descr[..k], RestFields(), descr[k..];
    assert Splice(descr, k) == pre + rest + post;
    RecordSizeConcat(pre + rest, post);
    RecordSizeConcat(pre, rest);
    RestFieldsSize();
    RecordSizeSplit(descr, k);
  }

  /** No original field is already called `f_rest_i` for one of the new `i`. */
  predicate NoRestClash(descr: seq<Field>) {
    forall j, i :: 0 <= j < |descr| && 0 <= i < RestCount ==> descr[j].name != RestName(i)
  }

  /** Which original field sits at position `p` of the spliced layout, outside the new fields. */
  function OriginalIndex(p: nat, k: nat): nat
    requires p < k || k + RestCount <= p
  {
    if p < k then p else p - RestCount
  }

  /** Position `p` of the spliced layout holds a new field or the original field it came from. */
  lemma SpliceAt(descr: seq<Field>, k: nat, p: nat)
    requires k <= |descr| && p < |descr| + RestCount
    ensures k <= p < k + RestCount ==> Splice(descr, k)[p] == Field(RestName(p - k), FloatSize)
    ensures (p < k || k + RestCount <= p) ==>
      && OriginalIndex(p, k) < |descr|
      && Splice(descr, k)[p] == descr[OriginalIndex(p, k)]
  {
    if p < k || k + RestCount <= p {
      assert NewPosition(OriginalIndex(p, k), k) == p;
    }
  }

  /** Without a clash, the spliced layout has distinct names. */
  lemma SpliceNamesDistinct(descr: seq<Field>, k: nat)
    requires k <= |descr| && DistinctNames(descr) && NoRestClash(descr)
    ensures DistinctNames(Splice(descr, k))
  {
    var r := Splice(descr, k);
    forall p, q | 0 <= p < q < |r|
      ensures r[p].name != r[q].name
    {
      SpliceAt(descr, k, p);
      SpliceAt(descr, k, q);
      if k <= p && k <= q {
        RestNameInjective(p - k, q - k);
      }
    }
  }

  /** An original field named like a new one appears twice in the spliced layout. */
  lemma ClashDuplicates(descr: seq<Field>, k: nat)
    requires k <= |descr| && !NoRestClash(descr)
    ensures !DistinctNames(Splice(descr, k))
  {
    var r := Splice(descr, k);
    var j, i :| 0 <= j < |descr| && 0 <= i < RestCount && descr[j].name == RestName(i);
    var p, q := NewPosition(j, k), k + i;
    assert r[p].name == r[q].name;
    if p < q {
      assert !(p < q ==> r[p].name != r[q].name);
    } else {
      assert !(q < p ==> r[q].name != r[p].name);
    }
  }

  /** With distinct original names, the spliced layout has distinct names exactly when nothing clashes. */
  lemma SpliceDistinct(descr: seq<Field>, k: nat)
    requires k <= |descr| && DistinctNames(descr)
    ensures DistinctNames(Splice(descr, k)) <==> NoRestClash(descr)
  {
    if NoRestClash(descr) {
      SpliceNamesDistinct(descr, k);
    } else {
      ClashDuplicates(descr, k);
    }
  }

  /**
   * The new dtype (lines 18-33): find `f_dc_2`, splice in the 45 new fields after
   * it, build the packed dtype and insist on 248 bytes. It succeeds exactly when
   * `f_dc_2` is present, no original field is a new field's name, and the
   * original record is 68 bytes (248 less the 180 new bytes).
   */
  function NewLayout(descr: seq<Field>): (r: Result<seq<Field>, ConvertError>)
    requires DistinctNames(descr)
    ensures r == Failure(MissingField(SplitAfter)) <==> FieldIndex(descr, SplitAfter).None?
    ensures r == Failure(DuplicateField) <==> FieldIndex(descr, SplitAfter).Some? && !NoRestClash(descr)
    ensures r.Failure? && r.error.InvalidVertexSize? ==>
      r.error.size == RecordSize(descr) + RestCount * FloatSize != TargetVertexSize
    ensures r.Success? <==>
      && FieldIndex(descr, SplitAfter).Some?
      && NoRestClash(descr)
      && RecordSize(descr) == TargetVertexSize - RestCount * FloatSize
    ensures r.Success? ==>
      && DistinctNames(r.value)
      && RecordSize(r.value) == TargetVertexSize
      && r.value == Splice(descr, FieldIndex(descr, SplitAfter).value + 1)
  {
    match FieldIndex(descr, SplitAfter)
    case None => Failure(MissingField(SplitAfter))
    case Some(i) =>
      var layout := Splice(descr, i + 1);
      SpliceDistinct(descr, i + 1);
      SpliceSize(descr, i + 1);
      if !DistinctNames(layout) then Failure(DuplicateField)
      else if RecordSize(layout) != TargetVertexSize then Failure(InvalidVertexSize(RecordSize(layout)))
      else Success(layout)
  }

  /** The field names of a degree-0 Gaussian splat vertex. */
  const StandardNames: seq<string> := [
    "x", "y", "z", "nx", "ny", "nz", "f_dc_0", "f_dc_1", "f_dc_2", "opacity",
    "scale_0", "scale_1", "scale_2", "rot_0", "rot_1", "rot_2", "rot_3"]

  /** The vertex record of a degree-0 Gaussian splat file: 17 four-byte floats. */
  const StandardFields: seq<Field> :=
    seq(|StandardNames|, i requires 0 <= i < |StandardNames| => Field(StandardNames[i], FloatSize))

  lemma StandardNamesDistinct()
    ensures DistinctNames(StandardFields)
  {
    var s := StandardFields;
    forall i, j | 0 <= i < j < |s|
      ensures s[i].name != s[j].name
    {
    }
  }

  /** Every standard name is at most 7 characters, every new name at least 8. */
  lemma StandardNoClash()
    ensures NoRestClash(StandardFields)
  {
    var s := StandardFields;
    forall j, i | 0 <= j < |s| && 0 <= i < RestCount
      ensures s[j].name != RestName(i)
    {
      assert |s[j].name| <= 7;
    }
  }

  /** `f_dc_2` is field 8 of the standard layout. */
  lemma StandardSplitPoint()
    ensures FieldIndex(StandardFields, SplitAfter) == Some(8)
  {
    var s := StandardFields;
    assert s[8].name == SplitAfter;
    forall i | 0 <= i < 8
      ensures s[i].name != SplitAfter
    {
    }
  }

  /** The standard record is 68 bytes. */
  lemma StandardSize()
    ensures RecordSize(StandardFields) == TargetVertexSize - RestCount * FloatSize
  {
    FloatRecordSize(StandardFields);
  }

  /** The degree-0 splat layout converts, with the new fields inserted after field 8. */
  lemma StandardLayoutConverts()
    ensures DistinctNames(StandardFields)
    ensures NewLayout(StandardFields) == Success(Splice(StandardFields, 9))
  {
    StandardNamesDistinct();
    StandardNoClash();
    StandardSplitPoint();
    StandardSize();
  }

  /** In the converted standard layout the new fields sit at 9 to 53 and `opacity` moves from 9 to 54. */
  lemma StandardSplicePositions()
    ensures Splice(StandardFields, 9)[9] == Field("f_rest_0", FloatSize)
    ensures Splice(StandardFields, 9)[54] == Field("opacity", FloatSize)
  {
    var r := Splice(StandardFields, 9);
    assert Decimal(0) == "0";
    assert r[9] == Field(RestName(0), FloatSize);
    assert r[NewPosition(9, 9)] == StandardFields[9];
  }

  // ---------------------------------------------------------------------------
  // Copying the vertex data (lines 36-38)
  // ---------------------------------------------------------------------------

  /** A column of `count` zeros, as `np.zeros` fills it. */
  function Zeros<V>(count: nat, zero: V): (c: seq<V>)
    ensures |c| == count && forall v :: 0 <= v < count ==> c[v] == zero
  {
    seq(count, _ => zero)
  }

  /** Looking an original field up by name in a spliced layout with distinct names finds its new position. */
  lemma LookupInSplice(descr: seq<Field>, k: nat, j: nat)
    requires k <= |descr| && DistinctNames(descr) && NoRestClash(descr) && j < |descr|
    ensures FieldIndex(Splice(descr, k), descr[j].name) == Some(NewPosition(j, k))
  {
    SpliceNamesDistinct(descr, k);
    FieldIndexOfDistinct(Splice(descr, k), NewPosition(j, k));
  }

  /** `new_vertices[field]` for original field `j`: the position of its name in the new layout. */
  function ColumnByName(descr: seq<Field>, k: nat, j: nat): (p: nat)
    requires k <= |descr| && DistinctNames(descr) && NoRestClash(descr) && j < |descr|
    ensures p == NewPosition(j, k)
  {
    LookupInSplice(descr, k, j);
    FieldIndex(Splice(descr, k), descr[j].name).value
  }

  /** Column `p` of the new array once the first `j` original columns are copied. */
  ghost function ColumnAfter<V>(columns: seq<seq<V>>, k: nat, zeros: seq<V>, j: nat, p: nat): seq<V> {
    if (p < k || k + RestCount <= p) && OriginalIndex(p, k) < j && OriginalIndex(p, k) < |columns|
    then columns[OriginalIndex(p, k)]
    else zeros
  }

  /**
   * `new_vertices = np.zeros(vertices.shape, dtype=new_dtype)` and then
   * `new_vertices[field] = vertices[field]` for every original field: each
   * original column is found by name in the new layout and copied there; the
   * new fields stay zero.
   */
  method PopulateVertices<V>(descr: seq<Field>, k: nat, columns: seq<seq<V>>, count: nat, zero: V)
    returns (newVertices: seq<seq<V>>)
    requires k <= |descr| && DistinctNames(descr) && NoRestClash(descr)
    requires |columns| == |descr|
    ensures |newVertices| == |descr| + RestCount
    ensures forall j :: 0 <= j < |descr| ==> newVertices[NewPosition(j, k)] == columns[j]
    ensures forall p :: k <= p < k + RestCount ==> newVertices[p] == Zeros(count, zero)
  {
    var zeros := Zeros(count, zero);
    var data := new seq<V>[|descr| + RestCount](_ => zeros);
    for j := 0 to |descr|
      invariant data.Length == |descr| + RestCount
      invariant forall p :: 0 <= p < data.Length ==> data[p] == ColumnAfter(columns, k, zeros, j, p)
    {
      var p := ColumnByName(descr, k, j);
      data[p] := columns[j];
    }
    newVertices := data[..];
    forall j | 0 <= j < |descr|
      ensures newVertices[NewPosition(j, k)] == columns[j]
    {
      assert OriginalIndex(NewPosition(j, k), k) == j;
    }
  }
}
