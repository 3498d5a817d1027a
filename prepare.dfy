/**
 * The decisions the two inference-preparation scripts make around the
 * resampler: the new depth `max(1, int(round(z * dz / target_dz)))`, where
 * `dz` comes from (the OME metadata of the stack, a fallback document, or a
 * sibling file), the channel configurations `{1: 0, 3: 1, 5: 2, 7: 3}`
 * (channel count to window half-width `k`), and the `main` loop of the
 * single-stack script that resamples each configured stack and records how
 * many cases every channel configuration produced. Parsing `PhysicalSizeZ`
 * out of OME-XML is a parameter: each stack carries the value it yields.
 */
module Prepare {
  import opened Wrappers
  import opened Numeric
  import opened Resample
  import opened Windows

  /** `z * dz / target_dz`, the depth the stack would have at the target spacing. */
  function Scaled(z: nat, dz: real, target: real): real
    requires target != 0.0
  {
    z as real * dz / target
  }

  /** `max(1, int(round(z * dz / target_dz)))`; the division by zero of `target_dz == 0` is excluded. */
  function NewDepth(z: nat, dz: real, target: real): (n: int)
    requires target != 0.0
    ensures n >= 1
    ensures Scaled(z, dz, target) >= 1.0 ==> n == RoundHalfEven(Scaled(z, dz, target))
    ensures Scaled(z, dz, target) < 1.0 ==> n == 1
  {
    Max(1, RoundHalfEven(Scaled(z, dz, target)))
  }

  /** At the target spacing a stack keeps its depth (and the resampler then returns it unchanged). */
  lemma NewDepthAtTarget(z: nat, dz: real)
    requires 1 <= z && dz != 0.0
    ensures NewDepth(z, dz, dz) == z
  {
    assert Scaled(z, dz, dz) == z as real;
    RoundOfInteger(z);
  }

  /** A deeper stack never gets fewer planes, whatever the spacings, as long as their ratio is not negative. */
  lemma NewDepthMonotone(z1: nat, z2: nat, dz: real, target: real)
    requires target != 0.0 && dz / target >= 0.0 && z1 <= z2
    ensures NewDepth(z1, dz, target) <= NewDepth(z2, dz, target)
  {
    ScaledLe(z1, z2, dz, target);
    RoundMonotone(Scaled(z1, dz, target), Scaled(z2, dz, target));
  }

  /** `z * dz / target_dz` grows with `z`; the step of `NewDepthMonotone` before rounding. */
  lemma ScaledLe(z1: nat, z2: nat, dz: real, target: real)
    requires target != 0.0 && dz / target >= 0.0 && z1 <= z2
    ensures Scaled(z1, dz, target) <= Scaled(z2, dz, target)
  {
    var q := dz / target;
    ScaleByRatio(z1 as real, dz, target);
    ScaleByRatio(z2 as real, dz, target);
    ScaleMonotone(z1 as real, z2 as real, q);
  }

  /** Regrouping `z * dz / target` as `z * (dz / target)`; nonlinear, so stated once here. */
  lemma ScaleByRatio(z: real, dz: real, target: real)
    requires target != 0.0
    ensures z * dz / target == z * (dz / target)
  {}

  /** Multiplying by a non-negative ratio keeps `<=`; nonlinear, so stated once here. */
  lemma ScaleMonotone(a: real, b: real, q: real)
    requires a <= b && q >= 0.0
    ensures a * q <= b * q
  {
    assert b * q - a * q == (b - a) * q;
  }

  /**
   * What opening a file with `tiff.TiffFile` gives: an exception (the path is
   * missing, or the file is not a TIFF), or the `dz` that `parse_dz_from_ome`
   * reads from its OME metadata.
   */
  datatype TiffMeta = CannotOpen | Opened(dz: Option<real>)

  /** No `dz` anywhere (the `RuntimeError`), or the fallback file could not be opened. */
  datatype DzError = MissingDz | FallbackUnopenable(path: string)

  /**
   * The single-stack script's choice of `dz`: the stack's own metadata; only when
   * that gives none and the item names a (non-empty) `fallback_dz_path`, the
   * metadata of that file (`readDz`), whose opening may raise; with no `dz`
   * from either, `RuntimeError`.
   */
  function ResolveDz(own: Option<real>, fallbackPath: Option<string>, readDz: string -> TiffMeta): (r: Result<real, DzError>)
    ensures own.Some? ==> r == Ok(own.value)
    ensures own.None? && fallbackPath.Some? && fallbackPath.value != "" ==>
      match readDz(fallbackPath.value)
      case CannotOpen => r == Err(FallbackUnopenable(fallbackPath.value))
      case Opened(dz) => (r.Ok? <==> dz.Some?) && (r.Ok? ==> r.value == dz.value) && (r.Err? ==> r == Err(MissingDz))
    ensures own.None? && (fallbackPath.None? || fallbackPath.value == "") ==> r == Err(MissingDz)
  {
    if own.Some? then Ok(own.value)
    else if fallbackPath.Some? && fallbackPath.value != "" then
      match readDz(fallbackPath.value)
      case CannotOpen => Err(FallbackUnopenable(fallbackPath.value))
      case Opened(Some(dz)) => Ok(dz)
      case Opened(None) => Err(MissingDz)
    else Err(MissingDz)
  }

  /** The fallback document is consulted only when the stack's own metadata has no `dz`. */
  lemma FallbackOnlyWhenMissing(dz: real, fallbackPath: Option<string>, read1: string -> TiffMeta, read2: string -> TiffMeta)
    ensures ResolveDz(Some(dz), fallbackPath, read1) == ResolveDz(Some(dz), fallbackPath, read2)
  {}

  /**
   * The bulk script's choice: the stack's own `dz`, else the first file of its
   * directory's `*.ome.tif` glob whose metadata has one (`siblings` lists what
   * each of them yields, in glob order); `None` makes the stack skipped.
   */
  function SiblingDz(own: Option<real>, siblings: seq<Option<real>>): (r: Option<real>)
    ensures own.Some? ==> r == own
    ensures own.None? ==> (r.Some? <==> exists i :: 0 <= i < |siblings| && siblings[i].Some?)
    ensures own.None? && r.Some? ==>
      exists i :: 0 <= i < |siblings| && siblings[i] == r && forall j :: 0 <= j < i ==> siblings[j].None?
  {
    if own.Some? then own
    else if siblings == [] then None
    else if siblings[0].Some? then siblings[0]
    else
      var r := SiblingDz(None, siblings[1..]);
      assert forall i :: 1 <= i < |siblings| ==> siblings[i] == siblings[1..][i - 1];
      r
  }

  /** One entry of `channel_configs`: `ch` channel files per case, window half-width `k`. */
  datatype ChannelConfig = ChannelConfig(ch: nat, k: nat)

  const ChannelConfigs: seq<ChannelConfig> :=
    [ChannelConfig(1, 0), ChannelConfig(3, 1), ChannelConfig(5, 2), ChannelConfig(7, 3)]

  /** Every configuration writes `2k + 1` channel files per case, and the four channel counts are distinct. */
  lemma ChannelConfigsWidth()
    ensures forall j :: 0 <= j < |ChannelConfigs| ==> ChannelConfigs[j].ch == 2 * ChannelConfigs[j].k + 1
    ensures forall i, j :: 0 <= i < j < |ChannelConfigs| ==> ChannelConfigs[i].ch != ChannelConfigs[j].ch
  {}

  /** One entry of `STACKS` together with what reading it yields. */
  datatype StackItem = StackItem(
    id: string,
    present: bool,          // `path.exists()`
    dz: Option<real>,       // `parse_dz_from_ome` of the stack itself
    fallbackPath: Option<string>,
    stack: Stack,
    rows: nat,
    cols: nat,
    dtype: Dtype)

  /** The `meta` record written for one stack (paths left out). */
  datatype Meta = Meta(id: string, dzOriginal: real, zOriginal: nat, zResampled: int,
                       resampled: Stack, counts: map<nat, nat>)

  /**
   * The exceptions that end `main`: `FileNotFoundError` for a missing stack,
   * the exception of opening an unreadable fallback file, `RuntimeError` for a
   * stack without `dz`, and the `IndexError` that `stack[z0]` raises when the
   * resampler is handed a stack of depth 0.
   */
  datatype PrepareError =
    | MissingStack(path: string)
    | UnreadableFallback(path: string)
    | NoDz(path: string)
    | EmptyStackIndex(path: string)

  predicate WellShaped(items: seq<StackItem>) {
    forall i :: 0 <= i < |items| ==> Shaped(items[i].stack, items[i].rows, items[i].cols)
  }

  /** `counts`: every channel configuration produced `n` cases. */
  function Counts(n: nat): (m: map<nat, nat>)
    ensures m.Keys == {1, 3, 5, 7}
    ensures forall ch :: ch in m ==> m[ch] == n
  {
    map[1 := n, 3 := n, 5 := n, 7 := n]
  }

  /**
   * What the loop body of `main` makes of one stack. It fails exactly when the
   * stack is missing, no `dz` can be resolved, or the stack has no planes, and
   * in that order of precedence; a record's resampled depth is the depth of
   * the stored stack, and every channel configuration reports that many cases.
   */
  function PlanStack(item: StackItem, readDz: string -> TiffMeta, target: real): (r: Result<Meta, PrepareError>)
    requires target != 0.0 && Shaped(item.stack, item.rows, item.cols)
    ensures r.Err? <==> !item.present || ResolveDz(item.dz, item.fallbackPath, readDz).Err? || |item.stack| == 0
    ensures !item.present ==> r == Err(MissingStack(item.id))
    ensures item.present && ResolveDz(item.dz, item.fallbackPath, readDz) == Err(MissingDz) ==> r == Err(NoDz(item.id))
    ensures item.present && item.dz.None? && item.fallbackPath.Some? && item.fallbackPath.value != "" ==>
      readDz(item.fallbackPath.value).CannotOpen? ==> r == Err(UnreadableFallback(item.fallbackPath.value))
    ensures item.present && ResolveDz(item.dz, item.fallbackPath, readDz).Ok? && |item.stack| == 0 ==>
      r == Err(EmptyStackIndex(item.id))
    ensures r.Ok? ==> |r.value.resampled| == r.value.zResampled >= 1 && r.value.counts == Counts(r.value.zResampled)
  {
    if !item.present then Err(MissingStack(item.id))
    else match ResolveDz(item.dz, item.fallbackPath, readDz)
      case Err(MissingDz) => Err(NoDz(item.id))
      case Err(FallbackUnopenable(fb)) => Err(UnreadableFallback(fb))
      case Ok(dz) =>
        var newZ := NewDepth(|item.stack|, dz, target);
        match ResampleZLinear(item.stack, item.rows, item.cols, newZ, item.dtype)
        case Err(_) => Err(EmptyStackIndex(item.id))
        case Ok(rs) => Ok(Meta(item.id, dz, |item.stack|, newZ, rs, Counts(|rs|)))
  }

  /** `main` over the first stacks: every meta record, or the first exception raised. */
  function PlanAll(items: seq<StackItem>, readDz: string -> TiffMeta, target: real): (r: Result<seq<Meta>, PrepareError>)
    requires target != 0.0 && WellShaped(items)
    ensures r.Ok? ==> |r.value| == |items|
    decreases |items|
  {
    if items == [] then Ok([])
    else
      var n := |items| - 1;
      match PlanAll(items[..n], readDz, target)
      case Err(e) => Err(e)
      case Ok(metas) =>
        match PlanStack(items[n], readDz, target)
        case Err(e) => Err(e)
        case Ok(m) => Ok(metas + [m])
  }

  /** An exception ends the run: nothing after the failing stack changes the outcome. */
  lemma {:induction false} ErrorIsFinal(items: seq<StackItem>, j: nat, readDz: string -> TiffMeta, target: real)
    requires target != 0.0 && WellShaped(items) && j <= |items|
    requires PlanAll(items[..j], readDz, target).Err?
    ensures PlanAll(items, readDz, target) == PlanAll(items[..j], readDz, target)
    decreases |items|
  {
    if j < |items| {
      var n := |items| - 1;
      assert items[..n][..j] == items[..j];
      ErrorIsFinal(items[..n], j, readDz, target);
    } else {
      assert items[..j] == items;
    }
  }

  /** One more stack: the outcome of the longer prefix in terms of the shorter one. */
  lemma PlanAllExtend(items: seq<StackItem>, i: nat, readDz: string -> TiffMeta, target: real)
    requires target != 0.0 && WellShaped(items) && i < |items|
    ensures PlanAll(items[..i + 1], readDz, target) ==
      match PlanAll(items[..i], readDz, target)
      case Err(e) => Err(e)
      case Ok(metas) =>
        match PlanStack(items[i], readDz, target)
        case Err(e) => Err(e)
        case Ok(m) => Ok(metas + [m])
    ensures PlanAll(items[..i + 1], readDz, target).Err? ==> PlanAll(items, readDz, target) == PlanAll(items[..i + 1], readDz, target)
  {
    assert items[..i + 1][..i] == items[..i];
    if PlanAll(items[..i + 1], readDz, target).Err? {
      ErrorIsFinal(items, i + 1, readDz, target);
    }
  }

  /** The `main` loop of the single-stack script: resample, then write the windows of every channel configuration. */
  method PrepareStacks(items: seq<StackItem>, readDz: string -> TiffMeta, target: real)
    returns (r: Result<seq<Meta>, PrepareError>)
    requires target != 0.0 && WellShaped(items)
    ensures r == PlanAll(items, readDz, target)
  {
    var metas: seq<Meta> := [];
    for i := 0 to |items|
      invariant PlanAll(items[..i], readDz, target) == Ok(metas)
    {
      var item := items[i];
      assert items[..i + 1][..i] == items[..i] && items[..i + 1][i] == item;
      PlanAllExtend(items, i, readDz, target);
      if !item.present {
        return Err(MissingStack(item.id));
      }
      var dz := ResolveDz(item.dz, item.fallbackPath, readDz);
      if dz.Err? {
        match dz.error
        case MissingDz => return Err(NoDz(item.id));
        case FallbackUnopenable(fb) => return Err(UnreadableFallback(fb));
      }
      var newZ := NewDepth(|item.stack|, dz.value, target);
      var rs := ResampleZLinear(item.stack, item.rows, item.cols, newZ, item.dtype);
      if rs.Err? {
        return Err(EmptyStackIndex(item.id));
      }
      var counts := WriteAllConfigs(rs.value, item.id);
      metas := metas + [Meta(item.id, dz.value, |item.stack|, newZ, rs.value, counts)];
    }
    assert items[..|items|] == items;
    r := Ok(metas);
  }

  /** `for ch, k in channel_configs.items(): counts[ch] = save_slice_images(stack_rs, ..., k)`. */
  method WriteAllConfigs<P>(stack: seq<P>, prefix: string) returns (counts: map<nat, nat>)
    ensures counts == Counts(|stack|)
  {
    counts := map[];
    for c := 0 to |ChannelConfigs|
      invariant counts.Keys == set j | 0 <= j < c :: ChannelConfigs[j].ch
      invariant forall ch :: ch in counts ==> counts[ch] == |stack|
    {
      var cfg := ChannelConfigs[c];
      var windows, n := SaveSliceImages(stack, prefix, cfg.k);
      assert |windows| == 0 || |windows[0].channels| == cfg.ch;
      counts := counts[cfg.ch := n];
    }
    assert (set j | 0 <= j < 4 :: ChannelConfigs[j].ch) == {1, 3, 5, 7} by {
      assert ChannelConfigs[0].ch == 1 && ChannelConfigs[1].ch == 3;
      assert ChannelConfigs[2].ch == 5 && ChannelConfigs[3].ch == 7;
    }
  }

  /**
   * On success every stack is recorded with its id and depths, resampled to
   * `max(1, new_z)` planes of unchanged shape, and every channel
   * configuration reports exactly that many cases.
   */
  lemma {:induction false} PlanAllMeta(items: seq<StackItem>, readDz: string -> TiffMeta, target: real, i: nat)
    requires target != 0.0 && WellShaped(items)
    requires PlanAll(items, readDz, target).Ok? && i < |items|
    ensures var m := PlanAll(items, readDz, target).value[i];
      && m.id == items[i].id
      && m.zOriginal == |items[i].stack| >= 1
      && m.zResampled == NewDepth(|items[i].stack|, m.dzOriginal, target)
      && ResolveDz(items[i].dz, items[i].fallbackPath, readDz) == Ok(m.dzOriginal)
      && |m.resampled| == m.zResampled
      && Shaped(m.resampled, items[i].rows, items[i].cols)
      && m.counts.Keys == {1, 3, 5, 7}
      && forall ch :: ch in m.counts ==> m.counts[ch] == m.zResampled
    decreases |items|
  {
    var n := |items| - 1;
    var metas := PlanAll(items[..n], readDz, target).value;
    if i < n {
      PlanAllMeta(items[..n], readDz, target, i);
      assert items[..n][i] == items[i];
    }
  }

  /** A stack already at the target spacing passes through unchanged. */
  lemma PlanStackAtTarget(item: StackItem, readDz: string -> TiffMeta)
    requires item.present && item.dz.Some? && item.dz.value != 0.0 && |item.stack| >= 1
    requires Shaped(item.stack, item.rows, item.cols)
    ensures var r := PlanStack(item, readDz, item.dz.value);
      r.Ok? && r.value.resampled == item.stack && r.value.zResampled == |item.stack|
  {
    NewDepthAtTarget(|item.stack|, item.dz.value);
  }
}
