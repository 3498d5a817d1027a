# myelin-benchmark data tools in Dafny

A verified model of the data-preparation tools of the myelin-benchmark
repository. These tools carry confocal microscopy Z-stacks into a 2-D,
per-slice nnU-Net model and back out again. The model covers:

- **Resampling and windowing.** Linear resampling of a stack along Z to a
  target spacing (`resample_z_linear`), the new-depth formula, and where the
  spacing `dz` comes from. Cutting a stack into per-slice windows of
  `2k + 1` channels (`save_slice_images`). Allocating case ids
  (`unique_case_id`).
- **Reassembly.** Putting per-slice predictions back into a stack
  (`_sorted_by_z`, `stack_slices`).
- **Training set.** Building the three-channel training set
  (`prepare_nnunet_2d3ch.py`) and the two train/validation split scripts.
- **CZI metadata.** The selection logic of the CZI metadata reader
  (`read_czi_meta.py`).
- **Preflight.** The DeepBranchTracer preflight guardrail
  (`dbt_preflight.py`). It classifies issues as errors or warnings, checks
  the output and split directories, and decides the report's `ok` and the
  exit code.

How each part is modelled:

- **Values and loops.** Pure code is modelled as functions over datatypes.
  The source's loops are methods proved against those functions. The two
  mutable objects of the source are classes:
  - `seen` of the bulk script is `CaseIds.CaseIdRegistry`;
  - the preflight `issues` list is `Preflight.IssueLog`.
- **Stacks.** The resampler works on exact reals,
  `seq<seq<seq<real>>>`. The code that only moves planes around
  (windowing, stacking, training windows) is generic in the plane type.
- **Outside data.** Files, the random generator, `float()` parsing and
  OME-XML parsing are inputs or function parameters (see "Left out").

Modules, one file each:

| file | module | source |
|---|---|---|
| wrappers.dfy | `Wrappers` | `Option` and `Result` |
| numeric.dfy | `Numeric` | clamping, round-half-to-even |
| text.dfy | `Text` | digits, `str(n)`, `f"{n:0Wd}"`, ASCII `lower`, Python string order, `sorted` |
| resample.dfy | `Resample` | `resample_z_linear` (both inference scripts) |
| windows.dfy | `Windows` | `save_slice_images` (both inference scripts) |
| case_ids.dfy | `CaseIds` | `unique_case_id` |
| prepare.dfy | `Prepare` | new depth, `dz` choice, `channel_configs`, `main` of the single-stack script |
| reconstruct.dfy | `Reconstruct` | `Z_RE`, `_sorted_by_z`, `stack_slices` |
| czi_meta.dfy | `CziMeta` | `strip_ns`, `read_xyz`, `parse_scaling`, `parse_scene_positions` |
| nnunet_prep.dfy | `NnunetPrep` | annotation alignment and the sliding-window loop |
| splits.dfy | `Splits` | `case_to_group`, grouped split, plain 70/30 split |
| preflight.dfy | `Preflight` | `_issue_level`, `_add_issue`, `_check_output`, `_check_case_dirs`, overlap check, report |

### Where the code and the design disagree

**Case ids are not always unique.** The design describes case ids as
unique within a run. The code of `unique_case_id` does not guarantee that:

- Its collision branch builds `{safe}__{stem}` without looking at `seen`
  again.
- Two colliding files whose parent directories sanitise to the same text
  therefore get the same id.

The model follows the code, and `CaseIds.CollisionIdsCanRepeat` exhibits
such a run.

**The grouped split ignores its training ratio.** The grouped split
computes `n_train` from `TRAIN_RATIO = 0.8`, then never uses it. Its
training side is every group except the single validation group, and the
model follows that.

## Model

Source paths are relative to the repository root. Where both inference
scripts carry the same code, the bulk script's lines are cited.

| member | source | states |
|---|---|---|
| Numeric.Clamp | tools/inference/prepare_inference_inputs_bulk.py:76 | `min(max(v, lo), hi)` lies in `[lo, hi]`, is `v` inside the range and the nearer bound outside it |
| Numeric.RoundHalfEven | tools/inference/prepare_inference_inputs_bulk.py:62 | the result is within 1/2 of `x`, goes to the nearer integer, and breaks a tie towards the even one |
| Numeric.RoundStaysBetween | tools/inference/prepare_inference_inputs_bulk.py:60-62 | rounding a value that lies between two integers gives a result between them |
| Numeric.RoundOfInteger | tools/inference/prepare_inference_inputs_bulk.py:152 | rounding an integer returns it |
| Numeric.RoundMonotone | tools/inference/prepare_inference_inputs_bulk.py:152 | rounding preserves `<=` |
| Text.Decimal | tools/guardrails/dbt_preflight.py:83 | `str(n)` is a non-empty digit string with no leading zero whose value is `n` |
| Text.ZeroPad | tools/inference/prepare_inference_inputs_bulk.py:74 | `f"{n:0Wd}"` is a digit string of length `max(W, len(str(n)))` whose value is `n` |
| Text.Lower | tools/czi_tools/read_czi_meta.py:27 | `key.lower()` keeps the length and maps exactly the ASCII capitals to lower case |
| Text.LexLe | tools/nnunet_prep/make_splits.py:21-22 | Python's `<=` on strings, by code point; every string is `<=` itself and every string it is a prefix of |
| Text.LexLeAntisymmetric | tools/nnunet_prep/make_splits.py:21-22 | two strings each `<=` the other under Python's order are equal (with `LexLeTotal` and `LexLeTransitive`, a total order) |
| Text.SortStrings | tools/nnunet_prep/make_splits.py:21-22 | `sorted(ids)` is ordered by Python's string order and is a permutation of `ids` |
| Resample.Position | tools/inference/prepare_inference_inputs_bulk.py:56 | the `linspace` points start at 0; a single point, or a one-plane stack, is sampled at 0 only (range and far end: `PositionBounds`, `LastPosition`) |
| Resample.PositionBounds | tools/inference/prepare_inference_inputs_bulk.py:56 | every `linspace(0, z - 1, n)` position lies in `[0, z - 1]` |
| Resample.SampleAt | tools/inference/prepare_inference_inputs_bulk.py:56-59 | `z0 = floor(pos) <= z - 1`, `z1 = min(z0 + 1, z - 1)`, `0 <= w < 1`, and `z0 + w` is the position |
| Resample.BlendPlanes | tools/inference/prepare_inference_inputs_bulk.py:60 | the blended plane has the rows and columns of its inputs |
| Resample.ResampleZLinear | tools/inference/prepare_inference_inputs_bulk.py:50-65 | `new_z == z` returns the stack itself; otherwise the depth is `max(1, new_z)` and rows and columns are kept; only an empty stack with `new_z != 0` fails (the `IndexError` of `stack[z0]`) |
| Resample.Voxel | tools/inference/prepare_inference_inputs_bulk.py:60-64 | for integer data the voxel is an integer in `[0, maxval]`; for floating data with `0 <= w <= 1` it lies between the two blended values |
| Resample.ResampleVoxel | tools/inference/prepare_inference_inputs_bulk.py:60-64 | each output voxel is the dtype-specific blend of the same voxel of planes `z0` and `z1` with weight `w` |
| Resample.InterpBetween | tools/inference/prepare_inference_inputs_bulk.py:60 | `(1 - w) a + w b` lies between `a` and `b` for `w` in `[0, 1]` |
| Resample.IntegerVoxelBetween | tools/inference/prepare_inference_inputs_bulk.py:60-62 | for integer data, round-and-clip of a blend of two in-range integers is an integer between them |
| Resample.ResampleIntegerBounds | tools/inference/prepare_inference_inputs_bulk.py:60-62 | every output voxel of an integer stack is an integer in `[0, maxval]` between the two source voxels it blends, on the identity path too |
| Resample.IdentityPosition | tools/inference/prepare_inference_inputs_bulk.py:56 | with `n == z`, position `i` is exactly `i` |
| Resample.GridPosition | tools/inference/prepare_inference_inputs_bulk.py:56 | when `n - 1` divides `z - 1`, position `i` is the whole number `i (z - 1) / (n - 1)` |
| Resample.ResampleOnGrid | tools/inference/prepare_inference_inputs_bulk.py:56-62 | on such a grid, output plane `i` is source plane `i (z - 1) / (n - 1)` exactly, for integer and float stacks |
| Resample.LastPosition | tools/inference/prepare_inference_inputs_bulk.py:56 | the last position is `z - 1` |
| Resample.EndpointPlane | tools/inference/prepare_inference_inputs_bulk.py:57-62 | an output plane whose position is a whole number `j` is source plane `j` unchanged |
| Resample.ResampleEndpoints | tools/inference/prepare_inference_inputs_bulk.py:56-62 | the first output plane is the first source plane and, for `new_z > 1`, the last is the last |
| Windows.CaseNameFields | tools/inference/prepare_inference_inputs_bulk.py:74 | `CaseName`, the case id `{prefix}_z{zi:03d}`, is the prefix, `_z`, and a digit run that reads back as `zi` |
| Windows.ChannelFileNameFields | tools/inference/prepare_inference_inputs_bulk.py:77 | `ChannelFileName`, `{case_id}_{ch_idx:04d}.tif`, is the case id, `_`, a digit run that reads back as the channel index, and `.tif` |
| Windows.SourcePlane | tools/inference/prepare_inference_inputs_bulk.py:76 | plane `clamp(zi - 1 + off, 0, z - 1)`: the offset plane when it exists, else the nearer edge plane |
| Windows.WriteWindow | tools/inference/prepare_inference_inputs_bulk.py:74-78 | the window of centre `zi` is case `{prefix}_z{zi:03d}` with `2k + 1` channel files, channel `c` holding `SourcePlane(zi, c - k)` under `{case}_{c:04d}.tif` |
| Windows.SaveSliceImages | tools/inference/prepare_inference_inputs_bulk.py:68-80 | returns `z`, one window per centre `1..z` in order, each with `2k + 1` channels as above; in the first window every offset `<= 0` reads plane 0, in the last every offset `>= 0` reads plane `z - 1` |
| Windows.ChannelFileNamesDistinct | tools/inference/prepare_inference_inputs_bulk.py:74-77 | two channel file names of one prefix are equal only for the same centre and channel: no file overwrites another |
| CaseIds.Sanitize | tools/inference/prepare_inference_inputs_bulk.py:88 | keeps the length, keeps characters of `[A-Za-z0-9_\\-]` (backslash and hyphen included), turns every other into `_` |
| CaseIds.SanitizeIdempotent | tools/inference/prepare_inference_inputs_bulk.py:88 | sanitising twice equals sanitising once |
| CaseIds.Allocate | tools/inference/prepare_inference_inputs_bulk.py:83-91 | the id is the stem iff the stem is unseen, else `{safe}__{stem}`; `seen` afterwards is `seen[id := 1]` |
| CaseIds.CaseIdRegistry.constructor | tools/inference/prepare_inference_inputs_bulk.py:125 | `seen` starts empty |
| CaseIds.CaseIdRegistry.UniqueCaseId | tools/inference/prepare_inference_inputs_bulk.py:83-91 | returns and records the id `Allocate` gives; the id is in `seen` and no key is removed |
| CaseIds.AllocateAll | tools/inference/prepare_inference_inputs_bulk.py:127-155 | one id per file that reaches `unique_case_id` (the listing minus the files skipped for a missing `dz` or a read error), every id recorded in `seen`, no key lost |
| CaseIds.AllocatePrefix | tools/inference/prepare_inference_inputs_bulk.py:127-155 | the ids of the first `j` files do not depend on later files |
| CaseIds.AllocateAllStep | tools/inference/prepare_inference_inputs_bulk.py:155 | file `j` gets the id one call makes of the `seen` left by the files before it |
| CaseIds.FirstSightIsFresh | tools/inference/prepare_inference_inputs_bulk.py:84-86 | a file whose stem is not yet in `seen` gets its bare stem, which differs from every earlier id |
| CaseIds.IdsRemembered | tools/inference/prepare_inference_inputs_bulk.py:84-90 | an id once handed out stays in `seen` for the rest of the run |
| CaseIds.CollisionIdsCanRepeat | tools/inference/prepare_inference_inputs_bulk.py:87-91 | stems `x` under `.`, `a b` and `a_b` get ids `x`, `a_b__x`, `a_b__x`: ids need not be unique |
| Prepare.NewDepth | tools/inference/prepare_inference_inputs_bulk.py:152 | `max(1, round(z dz / target_dz))` is at least 1, is the rounded depth when the scaled depth is at least 1, and is 1 when the scaled depth is below 1 |
| Prepare.NewDepthAtTarget | tools/inference/prepare_inference_inputs.py:167 | at the target spacing the depth is unchanged, so the resampler takes its identity path |
| Prepare.NewDepthMonotone | tools/inference/prepare_inference_inputs_bulk.py:152 | a deeper stack never gets fewer planes |
| Prepare.ResolveDz | tools/inference/prepare_inference_inputs.py:156-163 | own `dz` if present; else, with a non-empty fallback path: the exception of opening that file when it cannot be opened, its `dz` when it has one, the missing-`dz` error when not; without a fallback path, the missing-`dz` error |
| Prepare.FallbackOnlyWhenMissing | tools/inference/prepare_inference_inputs.py:158 | when the stack has its own `dz`, the fallback file is never read |
| Prepare.SiblingDz | tools/inference/prepare_inference_inputs_bulk.py:132-140 | own `dz`; else the first sibling in glob order that has one; `None` (skip) iff none has one |
| Prepare.ChannelConfigsWidth | tools/inference/prepare_inference_inputs.py:139-144 | each configured channel count is `2k + 1` for its `k`, and the counts are distinct |
| Prepare.Counts | tools/inference/prepare_inference_inputs.py:174-176 | `counts` has keys 1, 3, 5, 7, each mapped to the number of cases |
| Prepare.WriteAllConfigs | tools/inference/prepare_inference_inputs.py:174-176 | writing every configuration records `z` cases under each channel count |
| Prepare.PlanStack | tools/inference/prepare_inference_inputs.py:153-190 | fails iff the stack is missing, no `dz` resolves, or the stack has no planes; the error is `FileNotFoundError` for a missing stack, the fallback file's own exception when it cannot be opened, `RuntimeError` without `dz`, the resampler's `IndexError` for an empty stack; a record's `z_resampled` is the stored stack's depth and every configuration counts that many cases |
| Prepare.PlanAll | tools/inference/prepare_inference_inputs.py:152-190 | a successful run records one meta entry per stack |
| Prepare.ErrorIsFinal | tools/inference/prepare_inference_inputs.py:154-163 | once a stack raises, later stacks do not change the outcome |
| Prepare.PlanAllExtend | tools/inference/prepare_inference_inputs.py:152-190 | the outcome after stack `i` in terms of the outcome before it |
| Prepare.PrepareStacks | tools/inference/prepare_inference_inputs.py:152-190 | the `main` loop returns exactly `PlanAll`: all meta records, or the first exception of `PlanStack` |
| Prepare.PlanAllMeta | tools/inference/prepare_inference_inputs.py:165-190 | each record has the stack's id, original depth, the resolved `dz`, `z_resampled = NewDepth`, a resampled stack of that depth and shape, and counts equal to it |
| Prepare.PlanStackAtTarget | tools/inference/prepare_inference_inputs.py:166-168 | a stack already at the target spacing is recorded unchanged |
| Reconstruct.FirstMarker | tools/inference/stack_predictions_to_zstacks.py:17-22 | the leftmost `_z\d` match at or after `from`, or none |
| Reconstruct.DigitRunEnd | tools/inference/stack_predictions_to_zstacks.py:17 | the greedy `\d+` run ends at the first non-digit |
| Reconstruct.ZKey | tools/inference/stack_predictions_to_zstacks.py:21-23 | the key is `>= -1` and is `-1` iff the stem has no `_z<digit>` |
| Reconstruct.InsertBy | tools/inference/stack_predictions_to_zstacks.py:25 | insertion keeps the list ordered by key and adds exactly the element |
| Reconstruct.SortBy | tools/inference/stack_predictions_to_zstacks.py:25 | `sorted(key=...)` is ordered by key and a permutation of its input |
| Reconstruct.InsertWithKey | tools/inference/stack_predictions_to_zstacks.py:25 | inserting never reorders the elements of one key; the new element goes in front of its equals |
| Reconstruct.SortByStable | tools/inference/stack_predictions_to_zstacks.py:25 | the sort is stable: the elements of each key keep their input order |
| Reconstruct.OrderedByUnique | tools/inference/stack_predictions_to_zstacks.py:25 | two key-ordered permutations are equal when no two elements share a key |
| Reconstruct.SortedByZ | tools/inference/stack_predictions_to_zstacks.py:20-25 | `_sorted_by_z` is ordered by `_key` and a permutation of the listing |
| Reconstruct.SortedByZStable | tools/inference/stack_predictions_to_zstacks.py:25 | files with equal keys keep their listing order |
| Reconstruct.UnmatchedFirst | tools/inference/stack_predictions_to_zstacks.py:22-25 | files with no `_z<digits>` sort before every file with one |
| Reconstruct.ListingOrderIrrelevant | tools/inference/stack_predictions_to_zstacks.py:20-25 | with distinct keys, the sorted result does not depend on the listing order |
| Reconstruct.StackSlices | tools/inference/stack_predictions_to_zstacks.py:28-30 | empty input and differing plane shapes fail; otherwise depth equals the number of files and plane `i` is file `i` |
| Reconstruct.ZKeyOfName | tools/inference/stack_predictions_to_zstacks.py:17-23 | `{sid}_z{n:03d}` followed by a non-digit has key `n` when `sid` has no `_z<digit>` |
| Reconstruct.ChannelFileKey | tools/inference/stack_predictions_to_zstacks.py:17-23 | every channel file of centre `zi` has key `zi` |
| Reconstruct.SliceStemsKeys | tools/inference/stack_predictions_to_zstacks.py:17-25 | stems `{sid}_z001..` have keys `1..D`, are already in key order, and no two share a key |
| Reconstruct.StackSliceStems | tools/inference/stack_predictions_to_zstacks.py:28-30 | stacking the stems `{sid}_z001..{sid}_z{D:03d}` in order gives the volume back |
| Reconstruct.ReconstructRoundTrip | tools/inference/stack_predictions_to_zstacks.py:20-30 | writing a volume as per-slice files and reconstructing from any listing order of them gives the volume back |
| CziMeta.IndexOf | tools/czi_tools/read_czi_meta.py:20 | position of the first `}`, or none |
| CziMeta.StripNs | tools/czi_tools/read_czi_meta.py:19-20 | the text after the first `}`, or the tag unchanged without one |
| CziMeta.FirstChild | tools/czi_tools/read_czi_meta.py:29 | index of the first child with the tag, or none |
| CziMeta.FindText | tools/czi_tools/read_czi_meta.py:29-31 | `findtext(tag)` is present iff some child has the tag |
| CziMeta.GetVal | tools/czi_tools/read_czi_meta.py:24-37 | a value only comes from one of the four sources, and a present attribute `key` decides the result alone |
| CziMeta.LookupOrder | tools/czi_tools/read_czi_meta.py:24-37 | `get_val` takes the first present of: attribute `key`, attribute `key.lower()`, child text `key`, child text `key.lower()`, then parses it |
| CziMeta.NoSourceNoValue | tools/czi_tools/read_czi_meta.py:32-33 | no source present gives `None` |
| CziMeta.FirstSourceIsFinal | tools/czi_tools/read_czi_meta.py:34-37 | an unparsable first source gives `None`, with no fall-through |
| CziMeta.NoFallThroughExample | tools/czi_tools/read_czi_meta.py:25-37 | attribute `X="abc"` hides a child `<X>1.5</X>` |
| CziMeta.ReadXyz | tools/czi_tools/read_czi_meta.py:23-39 | each coordinate is present only when its key has a source on the node |
| CziMeta.OrElse | tools/czi_tools/read_czi_meta.py:45-47 | Python's `a or b` on optional strings |
| CziMeta.DistanceId | tools/czi_tools/read_czi_meta.py:45 | `Id`, else `id`, else the stripped tag, skipping empty values |
| CziMeta.DistanceScale | tools/czi_tools/read_czi_meta.py:46-53 | the value is the parsed `Value` text (`None` without one); the unit is `DefaultUnit`, else `Unit` |
| CziMeta.Entries | tools/czi_tools/read_czi_meta.py:44-47 | one entry per `Distance` |
| CziMeta.Record | tools/czi_tools/read_czi_meta.py:54-55 | the table never has an empty key |
| CziMeta.ParseScaling | tools/czi_tools/read_czi_meta.py:42-56 | the loop builds exactly `Record` of the entries |
| CziMeta.LastWriterWins | tools/czi_tools/read_czi_meta.py:54-55 | a key is present iff some entry has that non-empty id, and maps to the last such entry's scale |
| CziMeta.Iter | tools/czi_tools/read_czi_meta.py:67 | `iter()` starts with the node itself |
| CziMeta.FirstCandidate | tools/czi_tools/read_czi_meta.py:67-74 | index of the first candidate node, or none |
| CziMeta.SceneList | tools/czi_tools/read_czi_meta.py:60-62 | the nested `Scenes//Scene` matches, or all `Scene` elements when there are none |
| CziMeta.FindCandidate | tools/czi_tools/read_czi_meta.py:67-74 | the `for ... break` loop finds exactly the first candidate |
| CziMeta.Locate | tools/czi_tools/read_czi_meta.py:66-81 | a scene's coordinates are all `None` or those of one of its nodes; a scene with a coordinate of its own always gets one |
| CziMeta.Choose | tools/czi_tools/read_czi_meta.py:66-81 | the pick is all `None` or the coordinates of a node that has one |
| CziMeta.LocateScene | tools/czi_tools/read_czi_meta.py:66-81 | one scene's coordinates are `Locate` of it |
| CziMeta.ParseScenePositions | tools/czi_tools/read_czi_meta.py:59-83 | one entry per scene, `scene_index` its position, coordinates `Locate` of that scene |
| CziMeta.SceneChoice | tools/czi_tools/read_czi_meta.py:66-81 | coordinates of the first position-tagged node with a coordinate; failing that, of the first node with one |
| CziMeta.SceneHasCoordinate | tools/czi_tools/read_czi_meta.py:66-81 | a scene gets a coordinate iff one of its nodes has one |
| NnunetPrep.AlignAnnotation | tools/nnunet_prep/prepare_nnunet_2d3ch.py:73-82 | the aligned annotation has the raw depth, keeps its first planes, and pads with zero planes |
| NnunetPrep.AlignSameDepth | tools/nnunet_prep/prepare_nnunet_2d3ch.py:75-81 | an annotation of the raw depth is unchanged |
| NnunetPrep.CaseCount | tools/nnunet_prep/prepare_nnunet_2d3ch.py:85 | `range(1, z - 1)` has `max(0, z - 2)` centres |
| NnunetPrep.CasesOf | tools/nnunet_prep/prepare_nnunet_2d3ch.py:85-103 | one case per centre |
| NnunetPrep.AllCasesCount | tools/nnunet_prep/prepare_nnunet_2d3ch.py:68-103 | all pairs together give `TotalCount` cases |
| NnunetPrep.PrepareDataset | tools/nnunet_prep/prepare_nnunet_2d3ch.py:64-121 | `main` writes exactly the cases of every pair, and `numTraining` is their number |
| NnunetPrep.WritePair | tools/nnunet_prep/prepare_nnunet_2d3ch.py:69-103 | one pair's pass writes exactly `CasesOf` the pair |
| NnunetPrep.WriteWindows | tools/nnunet_prep/prepare_nnunet_2d3ch.py:85-103 | the window loop writes case `z` for every centre `1..z_raw - 2` in order |
| NnunetPrep.CaseAt | tools/nnunet_prep/prepare_nnunet_2d3ch.py:86-96 | three channels holding raw planes `z - 1`, `z`, `z + 1` in order, and the label `{case_id}.tif` holding annotation plane `z` |
| NnunetPrep.CaseContents | tools/nnunet_prep/prepare_nnunet_2d3ch.py:86-96 | case `z` is `{prefix}_z{z:03d}`, channels `_0000..0002` hold raw `z - 1, z, z + 1`, and the label holds annotation plane `z`, or zeros past its end |
| NnunetPrep.CaseIdsDistinct | tools/nnunet_prep/prepare_nnunet_2d3ch.py:86 | distinct centres of one pair have distinct case ids |
| Splits.TrailingDigits | tools/nnunet_prep/make_splits_grouped.py:22 | the digit run that ends the string, preceded by a non-digit |
| Splits.CaseToGroup | tools/nnunet_prep/make_splits_grouped.py:21-23 | the group is the id itself or a non-empty proper prefix of it |
| Splits.CaseToGroupSpec | tools/nnunet_prep/make_splits_grouped.py:21-23 | when `(.+)_z\d+$` matches, the result is the text before `_z`; otherwise the id is unchanged |
| Splits.SplitAtDigits | tools/nnunet_prep/make_splits_grouped.py:22 | a match's `_z` sits right before the trailing digits, so the match is unique |
| Splits.GroupOfCaseName | tools/nnunet_prep/make_splits_grouped.py:21-23 | case `{prefix}_z{z:03d}` maps back to `prefix` |
| Splits.MembersSpec | tools/nnunet_prep/make_splits_grouped.py:30-33 | a group's list holds exactly the ids of that group |
| Splits.GroupBy | tools/nnunet_prep/make_splits_grouped.py:30-33 | the `setdefault().append` loop maps each group to its ids in order |
| Splits.BuildGroups | tools/nnunet_prep/make_splits_grouped.py:30-33 | `groups` has the groups of the case ids as keys, each mapped to its ids in order |
| Splits.AppendMember | tools/nnunet_prep/make_splits_grouped.py:33 | one more id joins only its own group's list, which was empty iff the group is new |
| Splits.EachIdInOneGroup | tools/nnunet_prep/make_splits_grouped.py:30-33 | each case id is in its own group's list and in no other |
| Splits.IdsInSpec | tools/nnunet_prep/make_splits_grouped.py:50-51 | the comprehension keeps exactly the ids whose group is selected |
| Splits.Candidates | tools/nnunet_prep/make_splits_grouped.py:42 | the candidates are the groups not in `EXCLUDE_FROM_VAL` |
| Splits.SplitGrouped | tools/nnunet_prep/make_splits_grouped.py:35-51 | error iff every group is excluded; else the validation group is an allowed group, the train groups are all the others, and both id lists are sorted |
| Splits.GroupedPartition | tools/nnunet_prep/make_splits_grouped.py:48-51 | train and validation ids partition the case ids, each validation id is in the validation group, and no training id is |
| Splits.Sides | tools/nnunet_prep/make_splits_grouped.py:50-51 | the same partition, for any grouping function |
| Splits.SplitByGroup | tools/nnunet_prep/make_splits_grouped.py:50-51 | filtering by the train groups and by the validation group splits the ids |
| Splits.NTrain | tools/nnunet_prep/make_splits.py:20 | `int(round(0.7 n))` is at most `n` |
| Splits.SplitPrefix | tools/nnunet_prep/make_splits.py:19-22 | train has `n_train` ids and is the first `n_train` of the shuffled list; validation is the rest; both sorted |
| Splits.PrefixPartition | tools/nnunet_prep/make_splits.py:21-22 | the two lists partition the case ids |
| Splits.PrefixSplitCanonical | tools/nnunet_prep/make_splits.py:17-22 | the result depends only on which ids land on each side |
| Splits.SortedUnique | tools/nnunet_prep/make_splits.py:21-22 | two sorted permutations of each other are equal |
| Preflight.IssueLevel | tools/guardrails/dbt_preflight.py:24-25 | `error` iff the check is critical, `warn` iff not |
| Preflight.IssueLog.constructor | tools/guardrails/dbt_preflight.py:237 | the issue list starts empty |
| Preflight.IssueLog.AddIssue | tools/guardrails/dbt_preflight.py:28-29 | appends exactly one issue, with its check's severity, and leaves earlier issues unchanged |
| Preflight.CountFiles | tools/guardrails/dbt_preflight.py:32-37 | a count above 0 means the path exists; a file counts 1 |
| Preflight.OverwriteIff | tools/guardrails/dbt_preflight.py:53-60 | at most one `overwrite` issue, raised iff the output holds a file and `allow_nonempty` is false |
| Preflight.CheckOutput | tools/guardrails/dbt_preflight.py:40-60 | no path: nothing; else the stats record and exactly the overwrite issues are added |
| Preflight.MissingFiles | tools/guardrails/dbt_preflight.py:112 | the missing list is exactly the required files not present |
| Preflight.Mismatched | tools/guardrails/dbt_preflight.py:90 | `bad` is exactly the case names the pattern does not match |
| Preflight.Sampled | tools/guardrails/dbt_preflight.py:101 | `len(case_dirs[:max(0, sample)])` |
| Preflight.WithPatches | tools/guardrails/dbt_preflight.py:103-121 | the counted cases are at most all of them, and all of them iff each has a patch directory |
| Preflight.SampleIssue | tools/guardrails/dbt_preflight.py:102-120 | at most one issue per sampled case, and one when it has no patch directory |
| Preflight.SampleIssueIff | tools/guardrails/dbt_preflight.py:111-120 | a case with patches raises an issue iff a required file is missing from its first patch |
| Preflight.SampleIssues | tools/guardrails/dbt_preflight.py:100-121 | sample issues are `dbt_structure` issues of the right severity; counted plus issued cases cover the sample |
| Preflight.NonemptyIff | tools/guardrails/dbt_preflight.py:73-86 | a `nonempty` issue iff the split directory is missing or `n_cases < min_cases`; every issue has its check's severity |
| Preflight.PatternIff | tools/guardrails/dbt_preflight.py:88-98 | a `split` issue comes out of `_check_case_dirs` iff the directory exists, a pattern is set and some case name fails it; at most one |
| Preflight.SampleCheckedBound | tools/guardrails/dbt_preflight.py:73-123 | missing dir gives `(0, 0)`; else `sample_checked <= min(n_cases, max(0, sample))`, with equality iff every sampled case has patches |
| Preflight.CheckCaseDirs | tools/guardrails/dbt_preflight.py:63-123 | appends exactly the too-few, pattern and sample issues, in that order, and returns the stats |
| Preflight.CheckSamples | tools/guardrails/dbt_preflight.py:100-121 | the sample loop appends exactly the sample issues and counts the cases with patches |
| Preflight.Common | tools/guardrails/dbt_preflight.py:185-194 | the common names are exactly the train names that are test names, each listed once, as many as `len(overlap)` |
| Preflight.SharedName | tools/guardrails/dbt_preflight.py:185-188 | the name sets intersect iff some train and test case share a name |
| Preflight.OverlapIff | tools/guardrails/dbt_preflight.py:184-195 | at most one `split` issue, raised iff both split directories exist and share a case name |
| Preflight.CheckOverlap | tools/guardrails/dbt_preflight.py:184-195 | appends exactly the overlap issues |
| Preflight.CriticalChecks | tools/guardrails/dbt_preflight.py:230-235 | the configured set if non-empty; else `{nonempty, dbt_structure, split, overwrite}` in strict and hybrid mode, and empty in warn mode |
| Preflight.OfSeverity | tools/guardrails/dbt_preflight.py:247-248 | exactly the issues of one severity |
| Preflight.OfSeverityConcat | tools/guardrails/dbt_preflight.py:247-248 | the filter distributes over concatenation: the errors and warnings keep the order of the issue list |
| Preflight.OfSeverityOne | tools/guardrails/dbt_preflight.py:247-248 | a single issue is kept iff it has the severity; with `OfSeverityConcat` this fixes the filtered list exactly |
| Preflight.Summarize | tools/guardrails/dbt_preflight.py:247-262 | `ok` iff no issue is an error; exit code 0 iff ok, else 2 |
| Preflight.SeveritiesPartition | tools/guardrails/dbt_preflight.py:247-248 | errors and warnings partition the issues |
| Preflight.OkIffNoCriticalIssue | tools/guardrails/dbt_preflight.py:247-249 | for leveled issues, `ok` iff no issue comes from a critical check |
| Preflight.ModeDefaults | tools/guardrails/dbt_preflight.py:230-262 | with no configured set, warn mode exits 0 and strict or hybrid mode exits 2 on any overwrite issue |

## Left out

- Files are not read or written. TIFF and CZI reading and writing, directory creation, globbing and listing, JSON and manifest files, `shutil.copy2`, `argparse` and printing are all left out. A written file is modelled by its name and contents, and a listing is an input sequence.
- Only file stems are modelled. Reconstruction takes one directory's stems. Images and labels of the training set differ by name only, not by directory.
- `float32` weights, `np.linspace` rounding error, and the `astype` of floating results are not modelled. Voxels and positions are exact reals.
- `np.rint` and Python `round` are exact round-half-to-even on reals. The model does not capture that `0.7`, `z * dz / target_dz` and similar values are binary floats.
- Splits.NTrain: rounds the exact `0.7 n`, whereas in binary floating point `n * 0.7` falls just below the half for n = 45, 85, 165, 325, 345, 365, 645, 665, 685, 705, 725 (up to 1000), where the source keeps 31, 59, 115, … training ids and the model one more.
- Prepare.NewDepth: `target_dz == 0` is excluded by a requires. Python raises `ZeroDivisionError` there, and the scripts always pass a positive constant.
- Prepare.PlanStack: opening a present stack itself with `tiff.TiffFile` and `load_stack` are taken to succeed; only the fallback file's opening can raise in the model.
- `parse_dz_from_ome` is not part of this model. Each stack carries the `Option<real>` it yields, and the fallback file's value comes from a function parameter.
- `load_stack` shape checks are not modelled. Stacks are assumed well shaped (a requires on the resampler and the prepare loop). A 2-D image read as a 1-plane stack is not modelled.
- `float()` is a parameter `parse` returning `None` where Python raises. The `findall` queries `.//Scaling//Distance`, `.//Scenes//Scene` and `.//Scene` are inputs: the matching elements in document order.
- `\d` in the `_z(\d+)` and `(.+)_z\d+$` patterns is ASCII digits only. Python also accepts other Unicode decimal digits.
- `str.lower` is ASCII lower-casing only.
- The random generator is not modelled. The shuffled orders are inputs, and `rng.choice` is an index input taken modulo the number of candidates.
- Splits.SplitGrouped: the validation group is `candidates[pick % len(candidates)]` for an input `pick`, which stands for the draw of `rng.choice`; its distribution is not modelled.
- The grouped split's `n_train` (from `TRAIN_RATIO`) is not modelled. It is computed but never used.
- The bulk script's `main` loop is not modelled as a whole. Its skip list, manifest bookkeeping, and `read_error` path are left out; its `dz` choice (`Prepare.SiblingDz`), new depth, case-id allocation (`CaseIds.AllocateAll`) and windowing are modelled. `CaseIds.AllocateAll` takes the files that reach `unique_case_id`: a file skipped for a missing `dz` or a `load_stack` error is not in its input, so it never enters `seen` (after a skipped `a/x.ome.tif`, `b/x.ome.tif` gets the bare `x.ome`).
- The bulk script's `tiff.TiffFile` on a sibling that cannot be opened raises out of `main`; `Prepare.SiblingDz` takes each sibling's `dz` as given.
- `case_dir_pattern` is a matcher function, not a regular expression. The default pattern is not modelled.
- The fold loop of `_check_dataset` is not modelled. This covers a missing `fold_root` or fold directory, the suspicious-glob `dbt_hygiene` check and the per-fold stats. The overlap check inside it is modelled (`Preflight.CheckOverlap`).
- `_as_path`'s `expanduser().resolve()` is not modelled, and an empty `output` section is taken as "no output path".
- In preflight messages, path text and the `repr` of a missing `fold_root` are plain strings. The overlap context lists the common names in sorted order.
- The report JSON (`asdict`, `sorted(critical_checks)`, `mode`, `adapter`) is not modelled beyond `ok`, the error and warning lists, and the exit code.
- methods/_template_method/train.py and methods/_template_method/infer.py are not part of this model: they hold no logic.
