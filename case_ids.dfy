/**
 * `unique_case_id(stem, rel_path, seen)` of the bulk preparation script: the
 * first file with a given stem keeps the bare stem as its case id; a later
 * one gets `{safe}__{stem}`, where `safe` is its parent directory with every
 * character outside `[A-Za-z0-9_\\-]` replaced by `_` (the class is written
 * in a raw string, so backslash and hyphen are both kept). The chosen id is
 * recorded in `seen`. The collision branch does not look at `seen` again.
 */
module CaseIds {

  /** The character class `[A-Za-z0-9_\\-]` of the raw-string pattern. */
  predicate SafeChar(c: char) {
    ('A' <= c <= 'Z') || ('a' <= c <= 'z') || ('0' <= c <= '9') || c == '_' || c == '\\' || c == '-'
  }

  /** `re.sub(r"[^A-Za-z0-9_\\-]", "_", parent)`. */
  function Sanitize(parent: string): (r: string)
    ensures |r| == |parent|
    ensures forall i :: 0 <= i < |r| ==> SafeChar(r[i])
    ensures forall i :: 0 <= i < |r| ==> SafeChar(parent[i]) ==> r[i] == parent[i]
    ensures forall i :: 0 <= i < |r| ==> !SafeChar(parent[i]) ==> r[i] == '_'
  {
    if parent == [] then []
    else [if SafeChar(parent[0]) then parent[0] else '_'] + Sanitize(parent[1..])
  }

  /** Sanitising a sanitised directory changes nothing. */
  lemma SanitizeIdempotent(parent: string)
    ensures Sanitize(Sanitize(parent)) == Sanitize(parent)
  {
    var s := Sanitize(parent);
    assert Sanitize(s) == s by {
      forall i | 0 <= i < |s| ensures Sanitize(s)[i] == s[i] {}
    }
  }

  /** The id chosen for one file and the `seen` map after recording it. */
  datatype Allocation = Allocation(id: string, seen: map<string, int>)

  /** One call `unique_case_id(stem, rel_path, seen)`, `parent` being `str(rel_path.parent)`. */
  function Allocate(seen: map<string, int>, stem: string, parent: string): (a: Allocation)
    ensures a.id in a.seen && a.seen[a.id] == 1
    ensures a.seen == seen[a.id := 1]
    ensures stem !in seen <==> a.id == stem
    ensures stem in seen ==> a.id == Sanitize(parent) + "__" + stem
  {
    if stem !in seen then Allocation(stem, seen[stem := 1])
    else
      var cid := Sanitize(parent) + "__" + stem;
      assert |cid| > |stem|;
      Allocation(cid, seen[cid := 1])
  }

  /** The `seen` dictionary of the bulk script's `main`, updated in place by each call. */
  class CaseIdRegistry {
    var seen: map<string, int>

    constructor()
      ensures seen == map[]
    {
      seen := map[];
    }

    method UniqueCaseId(stem: string, parent: string) returns (cid: string)
      modifies this
      ensures Allocation(cid, seen) == Allocate(old(seen), stem, parent)
      ensures cid in seen && old(seen).Keys <= seen.Keys
    {
      if stem !in seen {
        seen := seen[stem := 1];
        return stem;
      }
      var safe := Sanitize(parent);
      cid := safe + "__" + stem;
      seen := seen[cid := 1];
    }
  }

  /** One file of the bulk listing that reaches `unique_case_id`: its stem and its parent directory relative to the input root. */
  datatype Request = Request(stem: string, parent: string)

  datatype Batch = Batch(ids: seq<string>, seen: map<string, int>)

  /**
   * The ids the bulk loop hands out, one call per request, in listing order.
   * `reqs` is the sorted listing without the files the loop skips before the
   * call (no `dz`, or `load_stack` raised): those never enter `seen`.
   */
  function AllocateAll(seen: map<string, int>, reqs: seq<Request>): (b: Batch)
    ensures |b.ids| == |reqs|
    ensures seen.Keys <= b.seen.Keys
    ensures forall i :: 0 <= i < |b.ids| ==> b.ids[i] in b.seen
    decreases |reqs|
  {
    if reqs == [] then Batch([], seen)
    else
      var b := AllocateAll(seen, reqs[..|reqs| - 1]);
      var q := reqs[|reqs| - 1];
      var a := Allocate(b.seen, q.stem, q.parent);
      Batch(b.ids + [a.id], a.seen)
  }

  /** The ids of a prefix of the listing do not depend on the files after it. */
  lemma {:induction false} AllocatePrefix(seen: map<string, int>, reqs: seq<Request>, j: nat)
    requires j <= |reqs|
    ensures AllocateAll(seen, reqs).ids[..j] == AllocateAll(seen, reqs[..j]).ids
    decreases |reqs|
  {
    if j < |reqs| {
      var n := |reqs| - 1;
      assert reqs[..n][..j] == reqs[..j];
      AllocatePrefix(seen, reqs[..n], j);
      assert AllocateAll(seen, reqs).ids[..j] == AllocateAll(seen, reqs[..n]).ids[..j];
    } else {
      assert reqs[..j] == reqs;
    }
  }

  /** The id of file `j` is what one call makes of the `seen` left by the files before it. */
  lemma AllocateAllStep(seen: map<string, int>, reqs: seq<Request>, j: nat)
    requires j < |reqs|
    ensures var before := AllocateAll(seen, reqs[..j]);
            AllocateAll(seen, reqs).ids[j] == Allocate(before.seen, reqs[j].stem, reqs[j].parent).id
    ensures AllocateAll(seen, reqs).ids[..j] == AllocateAll(seen, reqs[..j]).ids
  {
    AllocatePrefix(seen, reqs, j);
    AllocatePrefix(seen, reqs, j + 1);
    var ids := AllocateAll(seen, reqs).ids;
    assert reqs[..j + 1][..j] == reqs[..j];
    assert ids[j] == ids[..j + 1][j];
  }

  /** A file whose stem has not been seen yet gets an id that no earlier file got. */
  lemma FirstSightIsFresh(seen: map<string, int>, reqs: seq<Request>, i: nat, j: nat)
    requires i < j < |reqs|
    requires reqs[j].stem !in AllocateAll(seen, reqs[..j]).seen
    ensures AllocateAll(seen, reqs).ids[j] == reqs[j].stem
    ensures AllocateAll(seen, reqs).ids[i] != AllocateAll(seen, reqs).ids[j]
  {
    AllocateAllStep(seen, reqs, j);
    var ids := AllocateAll(seen, reqs).ids;
    assert ids[i] == ids[..j][i];
  }

  /** Ids handed out once stay recorded: the run never forgets an id. */
  lemma IdsRemembered(seen: map<string, int>, reqs: seq<Request>, more: seq<Request>, i: nat)
    requires i < |reqs|
    ensures AllocateAll(seen, reqs).ids[i] in AllocateAll(seen, reqs + more).seen
  {
    var all := reqs + more;
    assert all[..|reqs|] == reqs;
    AllocatePrefix(seen, all, |reqs|);
    var ids := AllocateAll(seen, all).ids;
    assert ids[i] == ids[..|reqs|][i];
  }

  /**
   * Ids are not unique in general: the collision branch does not consult
   * `seen`, so two colliding files whose directories sanitise alike get the
   * same id (`a b` and `a_b` both become `a_b`).
   */
  lemma CollisionIdsCanRepeat()
    ensures var b := AllocateAll(map[], [Request("x", "."), Request("x", "a b"), Request("x", "a_b")]);
            b.ids == ["x", "a_b__x", "a_b__x"]
  {
    var r := [Request("x", "."), Request("x", "a b"), Request("x", "a_b")];
    assert Sanitize("a b") == "a_b" by {
      assert !SafeChar(' ');
      assert Sanitize("a b") == ['a'] + Sanitize(" b");
      assert Sanitize(" b") == ['_'] + Sanitize("b");
    }
    assert Sanitize("a_b") == "a_b" by {
      assert Sanitize("a_b") == ['a'] + Sanitize("_b");
      assert Sanitize("_b") == ['_'] + Sanitize("b");
    }
    assert r[..1][..0] == [] && r[..2][..1] == r[..1] && r[..3] == r && r[..3][..2] == r[..2];
    assert AllocateAll(map[], r[..1][..0]) == Batch([], map[]);
    assert Allocate(map[], "x", ".") == Allocation("x", map["x" := 1]);
    var b1 := AllocateAll(map[], r[..1]);
    assert b1 == Batch(["x"], map["x" := 1]);
    assert Sanitize("a b") + "__" + "x" == "a_b__x";
    assert Allocate(b1.seen, "x", "a b") == Allocation("a_b__x", map["x" := 1, "a_b__x" := 1]);
    var b2 := AllocateAll(map[], r[..2]);
    assert b2 == Batch(["x", "a_b__x"], map["x" := 1, "a_b__x" := 1]);
    assert AllocateAll(map[], r).ids == b2.ids + ["a_b__x"];
  }
}
