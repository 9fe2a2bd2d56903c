/**
 * The four emotion classes and the supervision views derived from a class index:
 * the label triple built while reading a training set, and `to_categorical`.
 */
module Labels {
  import opened Wrappers

  /** `EMOS`: class names in class-index order; the last one is the catch-all. */
  const EMOS: seq<string> := ["happy", "angry", "sad", "others"]

  /** The index of "others", `len(EMOS) - 1`. */
  const OTHERS: nat := |EMOS| - 1

  /** A class index as `EMOS_DIC` produces it. */
  type Emo = y: int | 0 <= y < 4

  /** `EMOS_DIC[name]`; `None` where Python raises `KeyError`. */
  function EmoIndex(name: string): (r: Option<Emo>)
    ensures r.Some? <==> name in EMOS
    ensures r.Some? ==> EMOS[r.value] == name
  {
    if name == "happy" then Some(0)
    else if name == "angry" then Some(1)
    else if name == "sad" then Some(2)
    else if name == "others" then Some(3)
    else None
  }

  function Sum(s: seq<int>): int
  {
    if s == [] then 0 else s[0] + Sum(s[1..])
  }

  /** The three views appended to `e_c`, `e_c_binary` and `e_c_emo` for one example. */
  datatype LabelTriple = LabelTriple(index: int, binary: int, emo: seq<int>)

  /** The one-hot over the first three emotions: all zero for "others". */
  function EmoVector(y: Emo): seq<int>
  {
    var zeros := seq(OTHERS, _ => 0);
    if y < OTHERS then zeros[y := 1] else zeros
  }

  /**
   * The derivation of one label triple. The three views are consistent projections
   * of the class: the flag is set exactly for "others", exactly then the vector is
   * all zero, and otherwise the vector has its single 1 at the class index.
   */
  function Derive(y: Emo): (t: LabelTriple)
    ensures t.index == y
    ensures t.binary == 0 || t.binary == 1
    ensures |t.emo| == |EMOS| - 1
    ensures forall i :: 0 <= i < |t.emo| ==> t.emo[i] == 0 || t.emo[i] == 1
    ensures t.binary == 1 <==> y == OTHERS
    ensures t.binary == 1 <==> forall i :: 0 <= i < |t.emo| ==> t.emo[i] == 0
    ensures y != OTHERS ==> forall i :: 0 <= i < |t.emo| ==> (t.emo[i] == 1 <==> i == y)
    ensures t.binary + Sum(t.emo) == 1
  {
    var emo := EmoVector(y);
    assert emo == [emo[0], emo[1], emo[2]];
    assert emo[1..] == [emo[1], emo[2]] && emo[1..][1..] == [emo[2]] && emo[1..][1..][1..] == [];
    assert Sum(emo[1..][1..]) == emo[2];
    assert Sum(emo[1..]) == emo[1] + emo[2];
    LabelTriple(y, if y == OTHERS then 1 else 0, emo)
  }

  /** The error `to_categorical` raises: a class index outside the matrix. */
  datatype IndexError = IndexError(row: nat, value: int)

  /** The column numpy writes for index `v` in a row of width `width` (negative indices count from the end). */
  function Column(v: int, width: nat): int
  {
    if v < 0 then width + v else v
  }

  predicate InRange(v: int, width: nat)
  {
    -(width as int) <= v < width
  }

  /**
   * `to_categorical(vec)`: a `len(vec)` by `numEmo` matrix of zeros with a 1 written,
   * row by row, at the column each value names. An out-of-range value raises, so
   * nothing is returned.
   */
  method ToCategorical(vec: seq<int>, numEmo: nat) returns (r: Result<array2<int>, IndexError>)
    ensures r.Failure? <==> exists i :: 0 <= i < |vec| && !InRange(vec[i], numEmo)
    ensures r.Failure? ==> r.error.row < |vec| && r.error.value == vec[r.error.row]
                           && !InRange(vec[r.error.row], numEmo)
                           && forall i :: 0 <= i < r.error.row ==> InRange(vec[i], numEmo)
    ensures r.Success? ==> fresh(r.value)
    ensures r.Success? ==> r.value.Length0 == |vec| && r.value.Length1 == numEmo
    ensures r.Success? ==> forall i, j :: 0 <= i < |vec| && 0 <= j < numEmo ==>
                             r.value[i, j] == (if j == Column(vec[i], numEmo) then 1 else 0)
  {
    var toRet := new int[|vec|, numEmo]((_, _) => 0);
    for idx := 0 to |vec|
      invariant forall i :: 0 <= i < idx ==> InRange(vec[i], numEmo)
      invariant forall i, j :: 0 <= i < |vec| && 0 <= j < numEmo ==>
                  toRet[i, j] == (if i < idx && j == Column(vec[i], numEmo) then 1 else 0)
    {
      var val := vec[idx];
      if !InRange(val, numEmo) {
        return Failure(IndexError(idx, val));
      }
      toRet[idx, Column(val, numEmo)] := 1;
    }
    return Success(toRet);
  }
}
