/**
 * The training-set builder for the 2-D three-channel model: every raw stack
 * is paired with an annotation stack, the annotation is padded with zero
 * planes or truncated to the raw depth, and every interior slice `z`
 * (0-based, `1 .. z_raw - 2`) becomes one case whose channels are the raw
 * planes `z - 1`, `z`, `z + 1` and whose label is annotation plane `z`.
 * Writing a TIFF is modelled by recording its file name and plane.
 */
module NnunetPrep {
  import opened Numeric
  import opened Text
  import opened Windows

  /** One entry of `PAIRS` after loading: prefix, raw planes, annotation planes, and the zero plane of the annotation's shape and dtype. */
  datatype Pair<P> = Pair(prefix: string, raw: seq<P>, ann: seq<P>, zero: P)

  /** A written file: its name and the plane stored in it. */
  datatype Image<P> = Image(name: string, plane: P)

  /** One training case: the three channel images and the label image. */
  datatype TrainingCase<P> = TrainingCase(caseId: string, channels: seq<Image<P>>, labelFile: Image<P>)

  /** The annotation after `np.concatenate([ann, zeros])` or `ann[:z_raw]`. */
  function AlignAnnotation<P>(ann: seq<P>, zRaw: nat, zero: P): (r: seq<P>)
    ensures |r| == zRaw
    ensures forall i :: 0 <= i < zRaw && i < |ann| ==> r[i] == ann[i]
    ensures forall i :: |ann| <= i < zRaw ==> r[i] == zero
  {
    if |ann| < zRaw then ann + seq(zRaw - |ann|, _ => zero)
    else ann[..zRaw]
  }

  /** Aligning an annotation that already has the raw depth changes nothing. */
  lemma AlignSameDepth<P>(ann: seq<P>, zero: P)
    ensures AlignAnnotation(ann, |ann|, zero) == ann
  {
    assert ann[..|ann|] == ann;
  }

  /** Number of sliding-window centres `range(1, z_raw - 1)`. */
  function CaseCount(zRaw: nat): (n: nat)
    ensures zRaw >= 2 ==> n == zRaw - 2
    ensures zRaw < 2 ==> n == 0
  {
    Max(0, zRaw - 2)
  }

  /**
   * The case centred at 0-based slice `z`, `ann` being the aligned annotation:
   * three channels, the raw planes `z - 1`, `z`, `z + 1` in that order, and a
   * label file named after the case that holds annotation plane `z`.
   */
  function CaseAt<P>(prefix: string, raw: seq<P>, ann: seq<P>, z: nat): (c: TrainingCase<P>)
    requires 1 <= z && z + 1 < |raw| && |ann| == |raw|
    ensures |c.channels| == 3
    ensures c.channels[0].plane == raw[z - 1] && c.channels[1].plane == raw[z] && c.channels[2].plane == raw[z + 1]
    ensures c.labelFile.plane == ann[z]
  {
    var id := CaseName(prefix, z);
    var channels := [Image(ChannelFileName(prefix, z, 0), raw[z - 1]),
                     Image(ChannelFileName(prefix, z, 1), raw[z]),
                     Image(ChannelFileName(prefix, z, 2), raw[z + 1])];
    TrainingCase(id, channels, Image(id + ".tif", ann[z]))
  }

  /** The cases of one pair, by centre. */
  function CasesOf<P>(p: Pair<P>): (cs: seq<TrainingCase<P>>)
    ensures |cs| == CaseCount(|p.raw|)
  {
    var ann := AlignAnnotation(p.ann, |p.raw|, p.zero);
    seq(CaseCount(|p.raw|), i requires 0 <= i < CaseCount(|p.raw|) => CaseAt(p.prefix, p.raw, ann, i + 1))
  }

  /** The cases of all pairs, pair after pair. */
  function AllCases<P>(pairs: seq<Pair<P>>): seq<TrainingCase<P>>
    decreases |pairs|
  {
    if pairs == [] then [] else AllCases(pairs[..|pairs| - 1]) + CasesOf(pairs[|pairs| - 1])
  }

  function TotalCount<P>(pairs: seq<Pair<P>>): nat
    decreases |pairs|
  {
    if pairs == [] then 0 else TotalCount(pairs[..|pairs| - 1]) + CaseCount(|pairs[|pairs| - 1].raw|)
  }

  /** `numTraining` is the number of cases written, one per interior slice of every raw stack. */
  lemma {:induction false} AllCasesCount<P>(pairs: seq<Pair<P>>)
    ensures |AllCases(pairs)| == TotalCount(pairs)
    decreases |pairs|
  {
    if pairs != [] {
      AllCasesCount(pairs[..|pairs| - 1]);
    }
  }

  /** `main`: the case files of every pair, and `numTraining`. */
  method PrepareDataset<P>(pairs: seq<Pair<P>>) returns (cases: seq<TrainingCase<P>>, numTraining: nat)
    ensures cases == AllCases(pairs)
    ensures numTraining == |cases| == TotalCount(pairs)
  {
    cases := [];
    var caseCount := 0;
    for i := 0 to |pairs|
      invariant cases == AllCases(pairs[..i]) && caseCount == |cases|
    {
      assert pairs[..i + 1][..i] == pairs[..i];
      var written := WritePair(pairs[i]);
      cases := cases + written;
      caseCount := caseCount + |written|;
    }
    assert pairs[..|pairs|] == pairs;
    numTraining := caseCount;
    AllCasesCount(pairs);
  }

  /** One pass of the outer loop: align the annotation, then the window loop over the centres. */
  method WritePair<P>(p: Pair<P>) returns (written: seq<TrainingCase<P>>)
    ensures written == CasesOf(p)
  {
    var raw := p.raw;
    var zRaw := |raw|;
    var ann := p.ann;
    var zAnn := |ann|;
    if zAnn < zRaw {
      ann := ann + seq(zRaw - zAnn, _ => p.zero);
      zAnn := zRaw;
    } else if zAnn > zRaw {
      ann := ann[..zRaw];
      zAnn := zRaw;
    }
    assert ann == AlignAnnotation(p.ann, zRaw, p.zero);
    written := WriteWindows(p.prefix, raw, ann);
  }

  /** The window loop `for z in range(1, z_raw - 1)` over an aligned pair. */
  method WriteWindows<P>(prefix: string, raw: seq<P>, ann: seq<P>) returns (written: seq<TrainingCase<P>>)
    requires |ann| == |raw|
    ensures |written| == CaseCount(|raw|)
    ensures forall i :: 0 <= i < |written| ==> written[i] == CaseAt(prefix, raw, ann, i + 1)
  {
    written := [];
    var zRaw := |raw|;
    var hi := if zRaw >= 2 then zRaw - 1 else 1;
    for z := 1 to hi
      invariant |written| == z - 1
      invariant forall i :: 0 <= i < |written| ==> written[i] == CaseAt(prefix, raw, ann, i + 1)
    {
      var caseId := CaseName(prefix, z);
      var ch0, ch1, ch2 := raw[z - 1], raw[z], raw[z + 1];
      var labelPlane := ann[z];
      var img0 := Image(ChannelFileName(prefix, z, 0), ch0);
      var img1 := Image(ChannelFileName(prefix, z, 1), ch1);
      var img2 := Image(ChannelFileName(prefix, z, 2), ch2);
      var lab := Image(caseId + ".tif", labelPlane);
      var c := TrainingCase(caseId, [img0, img1, img2], lab);
      assert c == CaseAt(prefix, raw, ann, z);
      written := written + [c];
    }
  }

  /**
   * Case `z` of a pair: the case id `{prefix}_z{z:03d}`, channel files
   * `_0000` .. `_0002` holding raw planes `z - 1`, `z`, `z + 1`, and the label
   * holding annotation plane `z`, or a zero plane where the annotation was
   * shorter than the raw stack.
   */
  lemma CaseContents<P>(p: Pair<P>, i: nat)
    requires i < CaseCount(|p.raw|)
    ensures var c := CasesOf(p)[i]; var z := i + 1;
      && z + 1 < |p.raw|
      && c.caseId == CaseName(p.prefix, z)
      && |c.channels| == 3
      && (forall ch :: 0 <= ch < 3 ==> c.channels[ch] == Image(ChannelFileName(p.prefix, z, ch), p.raw[z - 1 + ch]))
      && c.labelFile.name == c.caseId + ".tif"
      && c.labelFile.plane == (if z < |p.ann| then p.ann[z] else p.zero)
  {
    var ann := AlignAnnotation(p.ann, |p.raw|, p.zero);
    var c := CasesOf(p)[i];
    var z := i + 1;
    assert c == CaseAt(p.prefix, p.raw, ann, z);
    assert c.labelFile.plane == ann[z];
    forall ch | 0 <= ch < 3 ensures c.channels[ch] == Image(ChannelFileName(p.prefix, z, ch), p.raw[z - 1 + ch]) {
      if ch == 0 {
        assert c.channels[0] == Image(ChannelFileName(p.prefix, z, 0), p.raw[z - 1]);
      } else if ch == 1 {
        assert c.channels[1] == Image(ChannelFileName(p.prefix, z, 1), p.raw[z]);
      } else {
        assert c.channels[2] == Image(ChannelFileName(p.prefix, z, 2), p.raw[z + 1]);
      }
    }
  }

  /** Within one pair no two centres share a case id, so no case file overwrites another. */
  lemma {:induction false} CaseIdsDistinct<P>(p: Pair<P>, i: nat, j: nat)
    requires i < j < CaseCount(|p.raw|)
    ensures CasesOf(p)[i].caseId != CasesOf(p)[j].caseId
  {
    if CasesOf(p)[i].caseId == CasesOf(p)[j].caseId {
      var a, b := ZeroPad(i + 1, 3), ZeroPad(j + 1, 3);
      assert CaseName(p.prefix, i + 1) == (p.prefix + "_z") + a;
      assert CaseName(p.prefix, j + 1) == (p.prefix + "_z") + b;
      ConcatCancel(p.prefix + "_z", a, b);
    }
  }
}
