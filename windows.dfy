/**
 * `save_slice_images`: for every 1-based centre `zi` of a stack of depth `z`
 * and every channel offset `off` in `-k..k`, the plane `clamp(zi - 1 + off, 0, z - 1)`
 * is written under `{prefix}_z{zi:03d}_{off + k:04d}.tif`. Writing a TIFF is
 * modelled by recording the file name, the source plane index and the plane.
 */
module Windows {
  import opened Text
  import opened Numeric

  /** `{prefix}_z{zi:03d}`: the case id of one window (its fields: `CaseNameFields`). */
  function CaseName(prefix: string, zi: nat): string {
    prefix + "_z" + ZeroPad(zi, 3)
  }

  /** `{case_id}_{ch_idx:04d}.tif`: the file of one channel of one window (its fields: `ChannelFileNameFields`). */
  function ChannelFileName(prefix: string, zi: nat, ch: nat): string {
    CaseName(prefix, zi) + ChannelSuffix(ch)
  }

  /** A case id is the prefix, `_z`, and a digit run that reads back as the centre. */
  lemma CaseNameFields(prefix: string, zi: nat)
    ensures var r := CaseName(prefix, zi);
      r[..|prefix|] == prefix && r[|prefix|..|prefix| + 2] == "_z" &&
      AllDigits(r[|prefix| + 2..]) && DigitsValue(r[|prefix| + 2..]) == zi
  {
    assert CaseName(prefix, zi)[|prefix| + 2..] == ZeroPad(zi, 3);
  }

  /** A channel file name is the case id, `_`, a digit run that reads back as the channel, and `.tif`. */
  lemma ChannelFileNameFields(prefix: string, zi: nat, ch: nat)
    ensures var c, r := CaseName(prefix, zi), ChannelFileName(prefix, zi, ch);
      r[..|c|] == c && r[|c|] == '_' && r[|r| - 4..] == ".tif" &&
      AllDigits(r[|c| + 1..|r| - 4]) && DigitsValue(r[|c| + 1..|r| - 4]) == ch
  {
    var c, r := CaseName(prefix, zi), ChannelFileName(prefix, zi, ch);
    assert r[|c| + 1..|r| - 4] == ZeroPad(ch, 4);
  }

  function ChannelSuffix(ch: nat): string {
    "_" + ZeroPad(ch, 4) + ".tif"
  }

  /** The plane behind centre `zi` (1-based) at offset `off`: clamped, never wrapped or zero-filled. */
  function SourcePlane(zi: int, off: int, z: nat): (j: nat)
    requires 1 <= z
    ensures j < z
    ensures 0 <= zi - 1 + off < z ==> j == zi - 1 + off
    ensures zi - 1 + off < 0 ==> j == 0
    ensures zi - 1 + off >= z ==> j == z - 1
  {
    Clamp(zi - 1 + off, 0, z - 1)
  }

  datatype SliceFile<P> = SliceFile(name: string, source: nat, plane: P)

  datatype Window<P> = Window(caseId: string, channels: seq<SliceFile<P>>)

  /** What channel `ch` of the window centred at `zi` holds. */
  function ChannelFile<P>(stack: seq<P>, prefix: string, zi: nat, ch: nat, k: nat): SliceFile<P>
    requires 1 <= |stack|
  {
    var j := SourcePlane(zi, ch - k, |stack|);
    SliceFile(ChannelFileName(prefix, zi, ch), j, stack[j])
  }

  /** `w` is the window centred at `zi`: its case id and its `2k + 1` channel files in order. */
  ghost predicate WindowAt<P>(stack: seq<P>, prefix: string, k: nat, zi: nat, w: Window<P>)
    requires 1 <= |stack|
  {
    && w.caseId == CaseName(prefix, zi)
    && |w.channels| == 2 * k + 1
    && forall c: nat :: c < |w.channels| ==> w.channels[c] == ChannelFile(stack, prefix, zi, c, k)
  }

  method SaveSliceImages<P>(stack: seq<P>, prefix: string, k: nat) returns (windows: seq<Window<P>>, numCases: nat)
    ensures numCases == |stack| && |windows| == |stack|
    ensures forall i :: 0 <= i < |windows| ==>
      |windows[i].channels| == 2 * k + 1 && WindowAt(stack, prefix, k, i + 1, windows[i])
    // boundary clamping: the first window repeats plane 0 behind it, the last repeats plane z-1 ahead of it
    ensures |stack| > 0 ==> forall c :: 0 <= c <= k ==> windows[0].channels[c].source == 0
    ensures forall i, c :: i == |stack| - 1 && 0 <= i && k <= c <= 2 * k ==> windows[i].channels[c].source == |stack| - 1
  {
    var z := |stack|;
    numCases := 0;
    windows := [];
    for zi := 1 to z + 1
      invariant numCases == zi - 1 == |windows|
      invariant forall i :: 0 <= i < |windows| ==>
        |windows[i].channels| == 2 * k + 1 && WindowAt(stack, prefix, k, i + 1, windows[i])
    {
      var w := WriteWindow(stack, prefix, zi, k);
      windows := windows + [w];
      numCases := numCases + 1;
    }
    if z > 0 {
      assert WindowAt(stack, prefix, k, 1, windows[0]);
      forall c | 0 <= c <= k ensures windows[0].channels[c].source == 0 {
        assert windows[0].channels[c] == ChannelFile(stack, prefix, 1, c, k);
      }
      forall i, c | i == z - 1 && k <= c <= 2 * k ensures windows[i].channels[c].source == z - 1 {
        assert WindowAt(stack, prefix, k, z, windows[i]);
        assert windows[i].channels[c] == ChannelFile(stack, prefix, z, c, k);
      }
    }
  }

  /** The inner loop of `save_slice_images`: the `2k + 1` channel files of the window centred at `zi`. */
  method WriteWindow<P>(stack: seq<P>, prefix: string, zi: nat, k: nat) returns (w: Window<P>)
    requires 1 <= zi <= |stack|
    ensures WindowAt(stack, prefix, k, zi, w)
  {
    var z := |stack|;
    var idx := zi - 1;
    var caseId := CaseName(prefix, zi);
    var channels: seq<SliceFile<P>> := [];
    for off: int := -(k as int) to k + 1
      invariant |channels| == off + k
      invariant forall c: nat :: c < |channels| ==> channels[c] == ChannelFile(stack, prefix, zi, c, k)
    {
      var j := Min(Max(idx + off, 0), z - 1);
      var file := SliceFile(caseId + ChannelSuffix(off + k), j, stack[j]);
      assert file == ChannelFile(stack, prefix, zi, off + k, k);
      channels := channels + [file];
    }
    w := Window(caseId, channels);
  }

  /** A digit run ends at the first non-digit, so two digit runs followed by the same separator are equal. */
  lemma {:induction false} DigitRunsAgree(a: string, b: string, sep: char, r1: string, r2: string)
    requires AllDigits(a) && AllDigits(b) && !IsDigit(sep)
    requires a + [sep] + r1 == b + [sep] + r2
    ensures a == b && r1 == r2
  {
    var s := a + [sep] + r1;
    assert s[|a|] == sep;
    assert forall i :: 0 <= i < |b| ==> s[i] == b[i];
    assert |a| <= |b| ==> |a| == |b|;
    assert forall i :: 0 <= i < |a| ==> s[i] == a[i];
    assert s[|b|] == sep;
    assert |b| <= |a| ==> |a| == |b|;
    assert a == s[..|a|] && b == s[..|b|];
    assert r1 == s[|a| + 1..] && r2 == s[|b| + 1..];
  }

  lemma ConcatCancel(p: string, x: string, y: string)
    requires p + x == p + y
    ensures x == y
  {
    assert x == (p + x)[|p|..];
  }

  /** Distinct (centre, channel) pairs get distinct file names: no window file overwrites another. */
  lemma {:induction false} ChannelFileNamesDistinct(prefix: string, zi1: nat, ch1: nat, zi2: nat, ch2: nat)
    requires ChannelFileName(prefix, zi1, ch1) == ChannelFileName(prefix, zi2, ch2)
    ensures zi1 == zi2 && ch1 == ch2
  {
    var p := prefix + "_z";
    var a1, a2 := ZeroPad(zi1, 3), ZeroPad(zi2, 3);
    var b1, b2 := ZeroPad(ch1, 4), ZeroPad(ch2, 4);
    var t1 := NameTail(prefix, zi1, ch1);
    var t2 := NameTail(prefix, zi2, ch2);
    ConcatCancel(p, t1, t2);
    DigitRunsAgree(a1, a2, '_', b1 + ".tif", b2 + ".tif");
    assert b1 + ".tif" == b1 + ['.'] + "tif";
    assert b2 + ".tif" == b2 + ['.'] + "tif";
    DigitRunsAgree(b1, b2, '.', "tif", "tif");
  }

  /** The part of a channel file name after `{prefix}_z`. */
  lemma NameTail(prefix: string, zi: nat, ch: nat) returns (t: string)
    ensures t == ZeroPad(zi, 3) + ['_'] + (ZeroPad(ch, 4) + ".tif")
    ensures ChannelFileName(prefix, zi, ch) == (prefix + "_z") + t
  {
    var p, a, b := prefix + "_z", ZeroPad(zi, 3), ZeroPad(ch, 4);
    t := a + ['_'] + (b + ".tif");
    assert CaseName(prefix, zi) == p + a;
    assert ChannelSuffix(ch) == ['_'] + (b + ".tif");
    assert (p + a) + (['_'] + (b + ".tif")) == p + t;
  }
}
