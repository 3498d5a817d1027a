/**
 * The two train/validation split scripts. The grouped one assigns whole
 * stacks (the case id without its `_z<digits>` suffix) to one side: one
 * randomly chosen stack outside `EXCLUDE_FROM_VAL` is validation, every
 * other stack is training. The plain one takes the first `round(0.7 n)`
 * ids of a shuffled list for training and the rest for validation. The
 * random shuffle and choice are inputs: the shuffled order, and the index
 * `rng.choice` draws.
 */
module Splits {
  import opened Wrappers
  import opened Numeric
  import opened Text
  import opened Windows

  // ---------------------------------------------------------------- case_to_group

  /** Start of the run of digits that ends the string. */
  function TrailingDigits(s: string): (d: nat)
    ensures d <= |s| && AllDigits(s[d..])
    ensures d > 0 ==> !IsDigit(s[d - 1])
  {
    if s == [] || !IsDigit(s[|s| - 1]) then |s|
    else
      var d := TrailingDigits(s[..|s| - 1]);
      assert s[d..] == s[..|s| - 1][d..] + [s[|s| - 1]];
      d
  }

  /** `re.match(r"(.+)_z\d+$", t)` matches with group `t[..p]` (for `t` without its trailing newline). */
  predicate GroupSplitAt(t: string, p: nat) {
    1 <= p && p + 2 < |t| && t[p] == '_' && t[p + 1] == 'z' && AllDigits(t[p + 2..]) &&
    forall i :: 0 <= i < p ==> t[i] != '\n'
  }

  /** `$` also matches just before a final newline. */
  function DropFinalNewline(s: string): string {
    if |s| > 0 && s[|s| - 1] == '\n' then s[..|s| - 1] else s
  }

  /** `case_to_group(case_id)`: the id itself, or a non-empty proper prefix of it. */
  function CaseToGroup(caseId: string): (g: string)
    ensures g == caseId || (0 < |g| < |caseId| && g == caseId[..|g|])
  {
    var t := DropFinalNewline(caseId);
    var d := TrailingDigits(t);
    if 3 <= d < |t| && GroupSplitAt(t, d - 2) then t[..d - 2] else caseId
  }

  /**
   * `case_to_group` strips the `_z<digits>` suffix when the pattern matches
   * (at least one character, none a newline, before it) and otherwise
   * returns the id unchanged; the match position is unique.
   */
  lemma CaseToGroupSpec(caseId: string)
    ensures var t := DropFinalNewline(caseId);
      forall p: nat :: GroupSplitAt(t, p) ==> CaseToGroup(caseId) == t[..p]
    ensures var t := DropFinalNewline(caseId);
      (forall p: nat :: !GroupSplitAt(t, p)) ==> CaseToGroup(caseId) == caseId
  {
    var t := DropFinalNewline(caseId);
    var d := TrailingDigits(t);
    forall p: nat | GroupSplitAt(t, p) ensures p == d - 2 && 3 <= d < |t| { SplitAtDigits(t, d, p); }
  }

  /** The `_z` of a match sits right before the trailing digits. */
  lemma SplitAtDigits(t: string, d: nat, p: nat)
    requires d <= |t| && AllDigits(t[d..]) && (d > 0 ==> !IsDigit(t[d - 1]))
    requires GroupSplitAt(t, p)
    ensures p == d - 2 && 3 <= d < |t|
  {
    assert forall i :: p + 2 <= i < |t| ==> IsDigit(t[i]) by {
      forall i | p + 2 <= i < |t| ensures IsDigit(t[i]) { assert t[i] == t[p + 2..][i - p - 2]; }
    }
    assert forall i :: d <= i < |t| ==> IsDigit(t[i]) by {
      forall i | d <= i < |t| ensures IsDigit(t[i]) { assert t[i] == t[d..][i - d]; }
    }
    assert !IsDigit(t[p + 1]);
  }

  /** A training case id `{prefix}_z{z:03d}` maps back to its stack's prefix. */
  lemma GroupOfCaseName(prefix: string, z: nat)
    requires prefix != [] && forall i :: 0 <= i < |prefix| ==> prefix[i] != '\n'
    ensures CaseToGroup(CaseName(prefix, z)) == prefix
  {
    var s := CaseName(prefix, z);
    var pad := ZeroPad(z, 3);
    var p := |prefix|;
    assert s == prefix + "_z" + pad;
    assert s[p + 2..] == pad;
    assert s[..p] == prefix;
    assert s[|s| - 1] == pad[|pad| - 1];
    assert DropFinalNewline(s) == s;
    assert GroupSplitAt(s, p);
    CaseToGroupSpec(s);
  }

  // ---------------------------------------------------------------- grouping

  /** The ids of `ids` whose group is `g`, in order: the list `groups[g]` collects. */
  function Members(ids: seq<string>, group: string -> string, g: string): seq<string>
    decreases |ids|
  {
    if ids == [] then []
    else
      var rest := Members(ids[..|ids| - 1], group, g);
      var x := ids[|ids| - 1];
      if group(x) == g then rest + [x] else rest
  }

  /** `groups[g]` holds exactly the ids of group `g`. */
  lemma {:induction false} MembersSpec(ids: seq<string>, group: string -> string, g: string)
    ensures forall x :: x in Members(ids, group, g) <==> x in ids && group(x) == g
    decreases |ids|
  {
    if ids != [] {
      var n := |ids| - 1;
      MembersSpec(ids[..n], group, g);
      assert ids == ids[..n] + [ids[n]];
    }
  }

  /** The groups of `ids`. */
  function GroupsOf(ids: seq<string>, group: string -> string): set<string>
  {
    set i | 0 <= i < |ids| :: group(ids[i])
  }

  /** `for cid in case_ids: groups.setdefault(case_to_group(cid), []).append(cid)`. */
  method BuildGroups(caseIds: seq<string>) returns (groups: map<string, seq<string>>)
    ensures groups.Keys == GroupsOf(caseIds, CaseToGroup)
    ensures forall g :: g in groups ==> groups[g] == Members(caseIds, CaseToGroup, g)
  {
    groups := GroupBy(caseIds, CaseToGroup);
  }

  /** The grouping loop, for any key function. */
  method GroupBy(ids: seq<string>, group: string -> string) returns (groups: map<string, seq<string>>)
    ensures groups.Keys == GroupsOf(ids, group)
    ensures forall g :: g in groups ==> groups[g] == Members(ids, group, g)
  {
    groups := map[];
    for i := 0 to |ids|
      invariant groups.Keys == GroupsOf(ids[..i], group)
      invariant forall g :: g in groups ==> groups[g] == Members(ids[..i], group, g)
    {
      var cid := ids[i];
      var g := group(cid);
      AppendMember(ids, group, i);
      var members := if g in groups then groups[g] else [];
      assert members == Members(ids[..i], group, g);
      groups := groups[g := members + [cid]];
    }
    assert ids[..|ids|] == ids;
  }

  /** One more id: it joins the list of its own group, which was empty iff the group was new. */
  lemma AppendMember(ids: seq<string>, group: string -> string, i: nat)
    requires i < |ids|
    ensures GroupsOf(ids[..i + 1], group) == GroupsOf(ids[..i], group) + {group(ids[i])}
    ensures Members(ids[..i + 1], group, group(ids[i])) == Members(ids[..i], group, group(ids[i])) + [ids[i]]
    ensures forall g :: g != group(ids[i]) ==> Members(ids[..i + 1], group, g) == Members(ids[..i], group, g)
    ensures group(ids[i]) !in GroupsOf(ids[..i], group) ==> Members(ids[..i], group, group(ids[i])) == []
  {
    var g := group(ids[i]);
    assert ids[..i + 1][..i] == ids[..i] && ids[..i + 1][i] == ids[i];
    var m := Members(ids[..i], group, g);
    MembersSpec(ids[..i], group, g);
    if m != [] {
      assert m[0] in m;
      assert m[0] in ids[..i] && group(m[0]) == g;
      var k :| 0 <= k < i && ids[..i][k] == m[0];
      assert g in GroupsOf(ids[..i], group);
    }
  }

  /** Every case id lands in the list of its own group and in no other. */
  lemma EachIdInOneGroup(caseIds: seq<string>, i: nat, g: string)
    requires i < |caseIds|
    ensures caseIds[i] in Members(caseIds, CaseToGroup, g) <==> g == CaseToGroup(caseIds[i])
  {
    MembersSpec(caseIds, CaseToGroup, g);
  }

  // ---------------------------------------------------------------- grouped split

  const ExcludeFromVal: set<string> := {"PIG_INTERFACE_S00"}

  /** Ids whose group is in `gs`, in their original order. */
  function IdsIn(ids: seq<string>, group: string -> string, gs: set<string>): seq<string>
    decreases |ids|
  {
    if ids == [] then []
    else
      var rest := IdsIn(ids[..|ids| - 1], group, gs);
      var x := ids[|ids| - 1];
      if group(x) in gs then rest + [x] else rest
  }

  /** The filter keeps exactly the ids whose group is in `gs`. */
  lemma {:induction false} IdsInSpec(ids: seq<string>, group: string -> string, gs: set<string>)
    ensures forall x :: x in IdsIn(ids, group, gs) <==> x in ids && group(x) in gs
    decreases |ids|
  {
    if ids != [] {
      var n := |ids| - 1;
      IdsInSpec(ids[..n], group, gs);
      assert ids == ids[..n] + [ids[n]];
    }
  }

  /** `[g for g in group_ids if g not in EXCLUDE_FROM_VAL]`. */
  function Candidates(groupOrder: seq<string>): (r: seq<string>)
    ensures forall g :: g in r <==> g in groupOrder && g !in ExcludeFromVal
    decreases |groupOrder|
  {
    if groupOrder == [] then []
    else
      var rest := Candidates(groupOrder[..|groupOrder| - 1]);
      var g := groupOrder[|groupOrder| - 1];
      assert groupOrder == groupOrder[..|groupOrder| - 1] + [g];
      if g !in ExcludeFromVal then rest + [g] else rest
  }

  datatype GroupedSplit = GroupedSplit(valGroup: string, trainGroups: set<string>, trainIds: seq<string>, valIds: seq<string>)

  datatype SplitError = NoValidationCandidates

  /**
   * The split of `make_splits_grouped.py`. `groupOrder` is `group_ids` after
   * the shuffle and `pick` the index `rng.choice` draws (taken modulo the
   * number of candidates).
   */
  function SplitGrouped(caseIds: seq<string>, groupOrder: seq<string>, pick: nat): (r: Result<GroupedSplit, SplitError>)
    ensures r.Err? <==> forall g :: g in groupOrder ==> g in ExcludeFromVal
    ensures r.Ok? ==> r.value.valGroup in groupOrder && r.value.valGroup !in ExcludeFromVal
    ensures r.Ok? ==> r.value.trainGroups == (set g | g in groupOrder && g != r.value.valGroup)
    ensures r.Ok? ==> SortedStrings(r.value.trainIds) && SortedStrings(r.value.valIds)
  {
    var candidates := Candidates(groupOrder);
    if |candidates| == 0 then
      Err(NoValidationCandidates)
    else
      var valGroup := candidates[pick % |candidates|];
      assert valGroup in candidates;
      var trainGroups := set g | g in groupOrder && g != valGroup;
      Ok(GroupedSplit(valGroup, trainGroups,
                      SortStrings(IdsIn(caseIds, CaseToGroup, trainGroups)),
                      SortStrings(IdsIn(caseIds, CaseToGroup, {valGroup}))))
  }

  /**
   * When `group_ids` holds exactly the groups of the case ids, the train and
   * validation ids partition the case ids, every validation id belongs to the
   * one validation stack and no training id does.
   */
  lemma GroupedPartition(caseIds: seq<string>, groupOrder: seq<string>, pick: nat)
    requires forall g :: g in groupOrder <==> g in GroupsOf(caseIds, CaseToGroup)
    requires SplitGrouped(caseIds, groupOrder, pick).Ok?
    ensures var s := SplitGrouped(caseIds, groupOrder, pick).value;
      && multiset(s.trainIds) + multiset(s.valIds) == multiset(caseIds)
      && (forall x :: x in s.valIds ==> CaseToGroup(x) == s.valGroup)
      && (forall x :: x in s.trainIds ==> CaseToGroup(x) != s.valGroup)
  {
    var s := SplitGrouped(caseIds, groupOrder, pick).value;
    Sides(caseIds, CaseToGroup, groupOrder, s.valGroup);
  }

  /** The two sorted sides of a split by groups, for any key function. */
  lemma Sides(ids: seq<string>, group: string -> string, groupOrder: seq<string>, v: string)
    requires forall g :: g in groupOrder <==> g in GroupsOf(ids, group)
    ensures var gs := set g | g in groupOrder && g != v;
      var train, val := SortStrings(IdsIn(ids, group, gs)), SortStrings(IdsIn(ids, group, {v}));
      && multiset(train) + multiset(val) == multiset(ids)
      && (forall x :: x in val ==> group(x) == v)
      && (forall x :: x in train ==> group(x) != v)
  {
    var gs := set g | g in groupOrder && g != v;
    forall i | 0 <= i < |ids| ensures group(ids[i]) in gs || group(ids[i]) == v {
      assert group(ids[i]) in GroupsOf(ids, group);
    }
    SplitByGroup(ids, group, gs, v);
    var train, val := IdsIn(ids, group, gs), IdsIn(ids, group, {v});
    IdsInSpec(ids, group, gs);
    IdsInSpec(ids, group, {v});
    var st, sv := SortStrings(train), SortStrings(val);
    forall x | x in sv ensures group(x) == v {
      assert x in multiset(val);
    }
    forall x | x in st ensures group(x) != v {
      assert x in multiset(train);
    }
  }

  /** Filtering by a set of groups and by one group outside it splits a list whose groups are all covered. */
  lemma {:induction false} SplitByGroup(ids: seq<string>, group: string -> string, gs: set<string>, v: string)
    requires v !in gs
    requires forall i :: 0 <= i < |ids| ==> group(ids[i]) in gs || group(ids[i]) == v
    ensures multiset(IdsIn(ids, group, gs)) + multiset(IdsIn(ids, group, {v})) == multiset(ids)
    decreases |ids|
  {
    if ids != [] {
      var n := |ids| - 1;
      assert forall i :: 0 <= i < n ==> ids[..n][i] == ids[i];
      SplitByGroup(ids[..n], group, gs, v);
      assert ids == ids[..n] + [ids[n]];
    }
  }

  // ---------------------------------------------------------------- plain split

  /**
   * `int(round(n * 0.7))`, with the product taken exactly. In binary floating
   * point `n * 0.7` lies just below the half for n = 45, 85, 165, 325, ..., where
   * the source keeps one training id fewer than this function.
   */
  function NTrain(n: nat): (k: nat)
    ensures k <= n
    ensures k == RoundHalfEven(n as real * 0.7)
  {
    RoundStaysBetween(n as real * 0.7, 0, n);
    RoundHalfEven(n as real * 0.7)
  }

  datatype PrefixSplit = PrefixSplit(trainIds: seq<string>, valIds: seq<string>)

  /** `make_splits.py` after `rng.shuffle(case_ids)`: `shuffled` is the shuffled list. */
  function SplitPrefix(shuffled: seq<string>): (r: PrefixSplit)
    ensures |r.trainIds| == NTrain(|shuffled|) && |r.valIds| == |shuffled| - NTrain(|shuffled|)
    ensures multiset(r.trainIds) == multiset(shuffled[..NTrain(|shuffled|)])
    ensures multiset(r.valIds) == multiset(shuffled[NTrain(|shuffled|)..])
    ensures SortedStrings(r.trainIds) && SortedStrings(r.valIds)
  {
    var k := NTrain(|shuffled|);
    var train, val := SortStrings(shuffled[..k]), SortStrings(shuffled[k..]);
    assert |train| == |multiset(train)| == k;
    assert |val| == |multiset(val)| == |shuffled| - k;
    PrefixSplit(train, val)
  }

  /** The two lists partition the case ids. */
  lemma PrefixPartition(shuffled: seq<string>)
    ensures var r := SplitPrefix(shuffled);
      multiset(r.trainIds) + multiset(r.valIds) == multiset(shuffled)
  {
    var k := NTrain(|shuffled|);
    assert shuffled == shuffled[..k] + shuffled[k..];
  }

  /** Sorting afterwards makes the split a function of which ids land on each side, not of their shuffled order. */
  lemma PrefixSplitCanonical(a: seq<string>, b: seq<string>)
    requires |a| == |b|
    requires multiset(a[..NTrain(|a|)]) == multiset(b[..NTrain(|b|)])
    requires multiset(a[NTrain(|a|)..]) == multiset(b[NTrain(|b|)..])
    ensures SplitPrefix(a) == SplitPrefix(b)
  {
    var ra, rb := SplitPrefix(a), SplitPrefix(b);
    SortedUnique(ra.trainIds, rb.trainIds);
    SortedUnique(ra.valIds, rb.valIds);
  }

  /** Two sorted lists of strings with the same elements are equal. */
  lemma {:induction false} SortedUnique(x: seq<string>, y: seq<string>)
    requires SortedStrings(x) && SortedStrings(y) && multiset(x) == multiset(y)
    ensures x == y
    decreases |x|
  {
    if x != [] {
      SameFirst(x, y);
      TailMultiset(x, y);
      SortedUnique(x[1..], y[1..]);
      assert x == [x[0]] + x[1..] && y == [y[0]] + y[1..];
    }
  }

  lemma SameFirst(x: seq<string>, y: seq<string>)
    requires SortedStrings(x) && SortedStrings(y) && multiset(x) == multiset(y) && x != []
    ensures y != [] && x[0] == y[0]
  {
    assert x[0] in multiset(y);
    assert y != [];
    assert y[0] in multiset(x);
    var j :| 0 <= j < |y| && y[j] == x[0];
    var i :| 0 <= i < |x| && x[i] == y[0];
    if j > 0 && i > 0 {
      assert LexLe(y[0], y[j]) && LexLe(x[0], x[i]);
      LexLeAntisymmetric(x[0], y[0]);
    }
  }
}
