/** Label back-projection and encoding: every point of a scan receives the
    class predicted for its voxel, remapped from the learning label space
    to the original one through `learning_map_inv`, and kept as the low
    16 bits of an unsigned 32-bit integer. */
module LabelProjection {
  import opened Outcome

  /** The per-voxel argmax of the prediction scores: one learning-space class
      per voxel cell, indexed `[x][y][z]`. */
  type Volume = seq<seq<seq<int>>>

  /** A point's voxel coordinates, one row of the per-point grid index array. */
  datatype Voxel = Voxel(x: int, y: int, z: int)

  predicate InVolume(pred: Volume, v: Voxel)
  {
    0 <= v.x < |pred| && 0 <= v.y < |pred[v.x]| && 0 <= v.z < |pred[v.x][v.y]|
  }

  predicate AllInVolume(pred: Volume, voxels: seq<Voxel>)
  {
    forall i :: 0 <= i < |voxels| ==> InVolume(pred, voxels[i])
  }

  function ClassAt(pred: Volume, v: Voxel): int
    requires InVolume(pred, v)
  {
    pred[v.x][v.y][v.z]
  }

  /** `predict_labels[count, grid[:, 0], grid[:, 1], grid[:, 2]]`: the class
      of each point's voxel, in point order. */
  function Gather(pred: Volume, voxels: seq<Voxel>): seq<int>
    requires AllInVolume(pred, voxels)
  {
    seq(|voxels|, i requires 0 <= i < |voxels| => ClassAt(pred, voxels[i]))
  }

  /** `np.vectorize(inv_learning_map.__getitem__)` over the classes, element
      by element: a class without an entry raises `KeyError`, and the first
      such class in point order is the one reported. */
  function Remap(inv: map<int, int>, classes: seq<int>): (r: Result<seq<int>>)
    ensures r.Ok? <==> forall i :: 0 <= i < |classes| ==> classes[i] in inv
    ensures r.Ok? ==> |r.value| == |classes|
    ensures r.Ok? ==> forall i :: 0 <= i < |classes| ==> r.value[i] == inv[classes[i]]
    ensures r.Err? ==>
              exists i :: 0 <= i < |classes| && classes[i] !in inv && r.error == UnknownLabel(classes[i]) &&
                          (forall j :: 0 <= j < i ==> classes[j] in inv)
  {
    if classes == [] then Ok([])
    else if classes[0] !in inv then Err(UnknownLabel(classes[0]))
    else
      var rest :- Remap(inv, classes[1..]);
      Ok([inv[classes[0]]] + rest)
  }

  /** `astype('uint32')`: numpy wraps an integer modulo 2^32. */
  function AsUint32(v: int): nat
  {
    v % 0x1_0000_0000
  }

  /** `x & 0xFFFF` for an unsigned 32-bit `x`: the low 16 bits. */
  function Low16(x: nat): nat
  {
    x % 0x1_0000
  }

  /** `labels.astype('uint32') & 0xFFFF`, element by element. */
  function Encode(labels: seq<int>): seq<int>
  {
    seq(|labels|, i requires 0 <= i < |labels| => Low16(AsUint32(labels[i])))
  }

  /** The encoded label keeps the value modulo 2^16: below 2^16, and equal
      to the remapped value whenever that is already in [0, 65535]. */
  lemma MaskKeepsLow16(v: int)
    ensures Low16(AsUint32(v)) == v % 0x1_0000
    ensures Low16(AsUint32(v)) < 0x1_0000
    ensures 0 <= v < 0x1_0000 ==> Low16(AsUint32(v)) == v
  {
    var q := v / 0x1_0000_0000;
    assert v == q * 0x1_0000_0000 + AsUint32(v);
    assert q * 0x1_0000_0000 == (q * 0x1_0000) * 0x1_0000;
  }

  lemma EncodeSpec(labels: seq<int>)
    ensures |Encode(labels)| == |labels|
    ensures forall i :: 0 <= i < |labels| ==> Encode(labels)[i] == labels[i] % 0x1_0000
  {
    forall i | 0 <= i < |labels| ensures Encode(labels)[i] == labels[i] % 0x1_0000 {
      MaskKeepsLow16(labels[i]);
    }
  }

  /** Lines 126-128 for one scan. */
  function Project(pred: Volume, voxels: seq<Voxel>, inv: map<int, int>): Result<seq<int>>
    requires AllInVolume(pred, voxels)
  {
    if |voxels| == 0 then Err(EmptyScan)
    else
      var remapped :- Remap(inv, Gather(pred, voxels));
      Ok(Encode(remapped))
  }

  /** `np.vectorize` refuses a size-0 input (no `otypes` is given), so a
      scan without points fails. Otherwise the result has one label per
      point, in point order: the remapped class of the point's voxel, modulo
      2^16; or the first point whose class has no entry in the map makes it
      fail with that class. */
  lemma ProjectSpec(pred: Volume, voxels: seq<Voxel>, inv: map<int, int>)
    requires AllInVolume(pred, voxels)
    ensures var r := Project(pred, voxels, inv);
      && (r == Err(EmptyScan) <==> |voxels| == 0)
      && (r.Ok? <==> |voxels| > 0 && forall i :: 0 <= i < |voxels| ==> ClassAt(pred, voxels[i]) in inv)
      && (r.Ok? ==> |r.value| == |voxels|)
      && (r.Ok? ==> forall i :: 0 <= i < |voxels| ==>
                      ClassAt(pred, voxels[i]) in inv && r.value[i] == inv[ClassAt(pred, voxels[i])] % 0x1_0000)
      && (r.Err? && |voxels| > 0 ==>
            exists i :: 0 <= i < |voxels| && ClassAt(pred, voxels[i]) !in inv &&
                        r.error == UnknownLabel(ClassAt(pred, voxels[i])) &&
                        (forall j :: 0 <= j < i ==> ClassAt(pred, voxels[j]) in inv))
  {
    if |voxels| > 0 {
      var classes := Gather(pred, voxels);
      assert forall i :: 0 <= i < |voxels| ==> classes[i] == ClassAt(pred, voxels[i]);
      var remapped := Remap(inv, classes);
      if remapped.Ok? {
        EncodeSpec(remapped.value);
      }
    }
  }

  /** Every label written fits in 16 bits, and a remapped label already in
      [0, 65535] is written unchanged. */
  lemma ProjectedLabelsFit(pred: Volume, voxels: seq<Voxel>, inv: map<int, int>, i: int)
    requires AllInVolume(pred, voxels) && Project(pred, voxels, inv).Ok? && 0 <= i < |voxels|
    ensures 0 <= Project(pred, voxels, inv).value[i] < 0x1_0000
    ensures 0 <= inv[ClassAt(pred, voxels[i])] < 0x1_0000 ==>
              Project(pred, voxels, inv).value[i] == inv[ClassAt(pred, voxels[i])]
  {
    ProjectSpec(pred, voxels, inv);
  }

  /** Points that share a voxel receive the same label. */
  lemma SharedVoxelSameLabel(pred: Volume, voxels: seq<Voxel>, inv: map<int, int>, i: int, j: int)
    requires AllInVolume(pred, voxels) && Project(pred, voxels, inv).Ok?
    requires 0 <= i < |voxels| && 0 <= j < |voxels| && voxels[i] == voxels[j]
    ensures Project(pred, voxels, inv).value[i] == Project(pred, voxels, inv).value[j]
  {
    ProjectSpec(pred, voxels, inv);
  }

  /** A 4 x 4 x 2 grid whose voxel (0, 0, 0) predicts class 1, the map
      {0: 0, 1: 10, 2: 20}, and three points in voxel (0, 0, 0): every
      point is labelled 10. */
  lemma SingleVoxelScan(pred: Volume)
    requires |pred| == 4 && forall x :: 0 <= x < 4 ==> |pred[x]| == 4 && forall y :: 0 <= y < 4 ==> |pred[x][y]| == 2
    requires pred[0][0][0] == 1
    ensures var voxels := [Voxel(0, 0, 0), Voxel(0, 0, 0), Voxel(0, 0, 0)];
      AllInVolume(pred, voxels) && Project(pred, voxels, map[0 := 0, 1 := 10, 2 := 20]) == Ok([10, 10, 10])
  {
    var voxels := [Voxel(0, 0, 0), Voxel(0, 0, 0), Voxel(0, 0, 0)];
    var inv := map[0 := 0, 1 := 10, 2 := 20];
    assert |pred[0]| == 4 && |pred[0][0]| == 2;
    ProjectSpec(pred, voxels, inv);
    var r := Project(pred, voxels, inv);
    assert r.Ok?;
    assert r.value == [10, 10, 10];
  }
}
