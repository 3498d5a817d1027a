/**
 * The selection logic of the CZI metadata reader over an ElementTree-like
 * tree: namespace stripping, the four-step coordinate lookup of `read_xyz`,
 * the `Distance` table of `parse_scaling` and the per-scene stage position
 * of `parse_scene_positions`. `float(...)` is a parameter `parse` that
 * yields `None` where Python raises; the `findall` path queries are inputs
 * (the lists of matching elements, in document order).
 */
module CziMeta {
  import opened Wrappers
  import opened Text

  /** An element: its tag, its attributes, its text and its children in document order. */
  datatype Node = Node(tag: string, attrs: map<string, string>, text: Option<string>, children: seq<Node>)

  /** Position of the first `c` in `s`, if any. */
  function IndexOf(s: string, c: char): (r: Option<nat>)
    ensures r.None? ==> forall i :: 0 <= i < |s| ==> s[i] != c
    ensures r.Some? ==> r.value < |s| && s[r.value] == c && forall i :: 0 <= i < r.value ==> s[i] != c
  {
    if s == [] then None
    else if s[0] == c then Some(0)
    else match IndexOf(s[1..], c)
      case None => None
      case Some(i) => Some(i + 1)
  }

  /** `strip_ns(tag)`: the text after the first `}`, or the tag unchanged without one. */
  function StripNs(tag: string): (r: string)
    ensures (forall i :: 0 <= i < |tag| ==> tag[i] != '}') ==> r == tag
    ensures forall i :: 0 <= i < |tag| && tag[i] == '}' && (forall j :: 0 <= j < i ==> tag[j] != '}') ==>
      r == tag[i + 1..]
  {
    match IndexOf(tag, '}')
    case None => tag
    case Some(i) => tag[i + 1..]
  }

  /** Index of the first child tagged `tag`. */
  function FirstChild(children: seq<Node>, tag: string): (r: Option<nat>)
    ensures r.None? ==> forall i :: 0 <= i < |children| ==> children[i].tag != tag
    ensures r.Some? ==> r.value < |children| && children[r.value].tag == tag
    ensures r.Some? ==> forall i :: 0 <= i < r.value ==> children[i].tag != tag
  {
    if children == [] then None
    else if children[0].tag == tag then Some(0)
    else match FirstChild(children[1..], tag)
      case None => None
      case Some(i) => Some(i + 1)
  }

  /** `node.findtext(tag)`: the text of the first child tagged `tag` (`""` when it has none), or `None`. */
  function FindText(node: Node, tag: string): (r: Option<string>)
    ensures r.Some? <==> exists i :: 0 <= i < |node.children| && node.children[i].tag == tag
  {
    match FirstChild(node.children, tag)
    case None => None
    case Some(i) => Some(if node.children[i].text.Some? then node.children[i].text.value else "")
  }

  /** The string `get_val(key)` settles on: the first of the four sources that is present. */
  function RawVal(node: Node, key: string): Option<string> {
    if key in node.attrs then Some(node.attrs[key])
    else if Lower(key) in node.attrs then Some(node.attrs[Lower(key)])
    else if FindText(node, key).Some? then FindText(node, key)
    else FindText(node, Lower(key))
  }

  /** One of the four places `get_val(key)` looks at holds something. */
  predicate HasSource(node: Node, key: string) {
    key in node.attrs || Lower(key) in node.attrs || FindText(node, key).Some? || FindText(node, Lower(key)).Some?
  }

  /**
   * `get_val(key)` inside `read_xyz`: a value only ever comes from one of the
   * four sources, and an attribute `key` decides the result on its own.
   */
  function GetVal(node: Node, key: string, parse: string -> Option<real>): (r: Option<real>)
    ensures r.Some? ==> HasSource(node, key)
    ensures key in node.attrs ==> r == parse(node.attrs[key])
  {
    match RawVal(node, key)
    case None => None
    case Some(v) => parse(v)
  }

  /**
   * The lookup order of `get_val`: attribute `key`, attribute `key.lower()`,
   * child text `key`, child text `key.lower()`; the first one present is
   * handed to `float`, and none present gives `None`.
   */
  lemma LookupOrder(node: Node, key: string, parse: string -> Option<real>)
    ensures key in node.attrs ==> GetVal(node, key, parse) == parse(node.attrs[key])
    ensures key !in node.attrs && Lower(key) in node.attrs ==>
      GetVal(node, key, parse) == parse(node.attrs[Lower(key)])
    ensures key !in node.attrs && Lower(key) !in node.attrs && FindText(node, key).Some? ==>
      GetVal(node, key, parse) == parse(FindText(node, key).value)
    ensures key !in node.attrs && Lower(key) !in node.attrs && FindText(node, key).None? ==>
      GetVal(node, key, parse) == (if FindText(node, Lower(key)).Some? then parse(FindText(node, Lower(key)).value) else None)
  {}

  /** No source at all gives `None`. */
  lemma NoSourceNoValue(node: Node, key: string, parse: string -> Option<real>)
    requires key !in node.attrs && Lower(key) !in node.attrs
    requires forall c :: c in node.children ==> c.tag != key && c.tag != Lower(key)
    ensures GetVal(node, key, parse) == None
  {
    assert FindText(node, key).None? && FindText(node, Lower(key)).None? by {
      forall i | 0 <= i < |node.children| ensures node.children[i].tag != key && node.children[i].tag != Lower(key) {
        assert node.children[i] in node.children;
      }
    }
  }

  /**
   * The first present source is final: an attribute `key` that does not parse
   * gives `None` even when a later source (here, a child text) would parse.
   */
  lemma FirstSourceIsFinal(node: Node, key: string, parse: string -> Option<real>)
    requires key in node.attrs && parse(node.attrs[key]).None?
    ensures GetVal(node, key, parse) == None
  {}

  /** A present but unparsable attribute `key` hides a parsable child `<key>`: a concrete case. */
  lemma NoFallThroughExample(parse: string -> Option<real>)
    requires parse("abc") == None && parse("1.5") == Some(1.5)
    ensures var n := Node("Position", map["X" := "abc"], None, [Node("X", map[], Some("1.5"), [])]);
      GetVal(n, "X", parse) == None && FindText(n, "X") == Some("1.5")
  {
    var n := Node("Position", map["X" := "abc"], None, [Node("X", map[], Some("1.5"), [])]);
    assert FirstChild(n.children, "X") == Some(0);
  }

  datatype Xyz = Xyz(x: Option<real>, y: Option<real>, z: Option<real>)

  /** `read_xyz(node)`: the lookups of `X`, `Y` and `Z`, in that order; a node with none of them has no coordinate. */
  function ReadXyz(node: Node, parse: string -> Option<real>): (r: Xyz)
    ensures r.x.Some? ==> HasSource(node, "X")
    ensures r.y.Some? ==> HasSource(node, "Y")
    ensures r.z.Some? ==> HasSource(node, "Z")
  {
    Xyz(GetVal(node, "X", parse), GetVal(node, "Y", parse), GetVal(node, "Z", parse))
  }

  predicate HasCoordinate(p: Xyz) { p.x.Some? || p.y.Some? || p.z.Some? }

  // ---------------------------------------------------------------- scaling

  /** One `Distance` entry: the parsed value and the unit text. */
  datatype Scale = Scale(value: Option<real>, unit: Option<string>)

  /** Python's `a or b` on optional strings: `None` and `""` are false. */
  function OrElse(a: Option<string>, b: Option<string>): (r: Option<string>)
    ensures a.Some? && a.value != "" ==> r == a
    ensures (a.None? || a.value == "") ==> r == b
  {
    if a.Some? && a.value != "" then a else b
  }

  function Attr(node: Node, name: string): Option<string> {
    if name in node.attrs then Some(node.attrs[name]) else None
  }

  /** `dist.get("Id") or dist.get("id") or strip_ns(dist.tag)`. */
  function DistanceId(dist: Node): (r: string)
    ensures "Id" in dist.attrs && dist.attrs["Id"] != "" ==> r == dist.attrs["Id"]
    ensures ("Id" !in dist.attrs || dist.attrs["Id"] == "") && "id" in dist.attrs && dist.attrs["id"] != "" ==>
      r == dist.attrs["id"]
    ensures ("Id" !in dist.attrs || dist.attrs["Id"] == "") && ("id" !in dist.attrs || dist.attrs["id"] == "") ==>
      r == StripNs(dist.tag)
  {
    var r := OrElse(OrElse(Attr(dist, "Id"), Attr(dist, "id")), Some(StripNs(dist.tag)));
    r.value
  }

  /** The `(val, unit_text)` pair recorded for one `Distance`. */
  function DistanceScale(dist: Node, parse: string -> Option<real>): (s: Scale)
    ensures FindText(dist, "Value").None? ==> s.value.None?
    ensures FindText(dist, "Value").Some? ==> s.value == parse(FindText(dist, "Value").value)
    ensures s.unit == OrElse(FindText(dist, "DefaultUnit"), FindText(dist, "Unit"))
  {
    var valText := FindText(dist, "Value");
    Scale(if valText.Some? then parse(valText.value) else None,
          OrElse(FindText(dist, "DefaultUnit"), FindText(dist, "Unit")))
  }

  /** What one `Distance` contributes: its id and its `(val, unit_text)` pair. */
  datatype Entry = Entry(id: string, scale: Scale)

  function Entries(dists: seq<Node>, parse: string -> Option<real>): (es: seq<Entry>)
    ensures |es| == |dists|
  {
    seq(|dists|, i requires 0 <= i < |dists| => Entry(DistanceId(dists[i]), DistanceScale(dists[i], parse)))
  }

  /** The dictionary after `scaling[dist_id] = ...` for every entry with a non-empty id, in order. */
  function Record(es: seq<Entry>): (m: map<string, Scale>)
    ensures forall key :: key in m ==> key != ""
    decreases |es|
  {
    if es == [] then map[]
    else
      var m := Record(es[..|es| - 1]);
      var e := es[|es| - 1];
      if e.id != "" then m[e.id := e.scale] else m
  }

  /** `parse_scaling(root)`, `dists` being `root.findall(".//Scaling//Distance")`. */
  method ParseScaling(dists: seq<Node>, parse: string -> Option<real>) returns (scaling: map<string, Scale>)
    ensures scaling == Record(Entries(dists, parse))
  {
    ghost var es := Entries(dists, parse);
    scaling := map[];
    for i := 0 to |dists|
      invariant scaling == Record(es[..i])
    {
      var dist := dists[i];
      var distId := DistanceId(dist);
      var scale := DistanceScale(dist, parse);
      assert es[..i + 1][..i] == es[..i] && es[i] == Entry(distId, scale);
      assert Record(es[..i + 1]) == if distId != "" then scaling[distId := scale] else scaling;
      if distId != "" {
        scaling := scaling[distId := scale];
      }
    }
    assert es[..|dists|] == es;
  }

  /**
   * Last writer wins: a key is in the table iff some entry has that
   * non-empty id, and it maps to the scale of the last such entry.
   */
  lemma {:induction false} LastWriterWins(es: seq<Entry>, key: string)
    ensures key in Record(es) <==> key != "" && exists i :: 0 <= i < |es| && es[i].id == key
    ensures forall i :: (0 <= i < |es| && es[i].id == key && key != "" &&
      forall j :: i < j < |es| ==> es[j].id != key) ==> Record(es)[key] == es[i].scale
    decreases |es|
  {
    if es != [] {
      var n := |es| - 1;
      LastWriterWins(es[..n], key);
      assert forall i :: 0 <= i < n ==> es[..n][i] == es[i];
    }
  }

  // ---------------------------------------------------------------- scene positions

  /** `node.iter()`: the node and then its descendants, depth first in document order. */
  function Iter(node: Node): (r: seq<Node>)
    ensures |r| >= 1 && r[0] == node
    decreases node
  {
    [node] + IterAll(node.children)
  }

  function IterAll(nodes: seq<Node>): seq<Node>
    decreases nodes
  {
    if nodes == [] then [] else Iter(nodes[0]) + IterAll(nodes[1..])
  }

  /** `strip_ns(node.tag).lower() in {"centerposition", "stageposition", "position"}`. */
  predicate PositionTag(tag: string) {
    var t := Lower(StripNs(tag));
    t == "centerposition" || t == "stageposition" || t == "position"
  }

  /** `read_xyz` as a function of the node alone, for a fixed `float`. */
  function Reader(parse: string -> Option<real>): Node -> Xyz {
    node => ReadXyz(node, parse)
  }

  /** The node the loop settles on: a coordinate-bearing node, and with `tagged` also a position tag. */
  predicate Candidate(node: Node, tagged: bool, read: Node -> Xyz) {
    (!tagged || PositionTag(node.tag)) && HasCoordinate(read(node))
  }

  /** Index of the first candidate, where the `for node in scene.iter()` loop breaks. */
  function FirstCandidate(nodes: seq<Node>, tagged: bool, read: Node -> Xyz): (r: Option<nat>)
    ensures r.None? ==> forall i :: 0 <= i < |nodes| ==> !Candidate(nodes[i], tagged, read)
    ensures r.Some? ==> r.value < |nodes| && Candidate(nodes[r.value], tagged, read)
    ensures r.Some? ==> forall i :: 0 <= i < r.value ==> !Candidate(nodes[i], tagged, read)
  {
    if nodes == [] then None
    else if Candidate(nodes[0], tagged, read) then Some(0)
    else match FirstCandidate(nodes[1..], tagged, read)
      case None => None
      case Some(i) => Some(i + 1)
  }

  /** The `pos` entry of one scene. */
  datatype ScenePos = ScenePos(sceneIndex: nat, x: Option<real>, y: Option<real>, z: Option<real>)

  /**
   * The coordinates `parse_scene_positions` records for one scene: all `None`,
   * or those of one of the scene's nodes; a scene that itself carries a
   * coordinate is never left without one.
   */
  function Locate(scene: Node, read: Node -> Xyz): (r: Xyz)
    ensures r == Xyz(None, None, None) || exists n :: n in Iter(scene) && r == read(n)
    ensures HasCoordinate(read(scene)) ==> HasCoordinate(r)
  {
    var nodes := Iter(scene);
    SceneHasCoordinate(nodes, read);
    assert nodes[0] == scene;
    Choose(nodes, read)
  }

  /**
   * The pick among the nodes of `scene.iter()`: the tagged search first, then
   * the search over all nodes. The result is all `None` or the coordinates of
   * a node that has one.
   */
  function Choose(nodes: seq<Node>, read: Node -> Xyz): (r: Xyz)
    ensures r == Xyz(None, None, None) || exists n :: n in nodes && HasCoordinate(read(n)) && r == read(n)
  {
    match FirstCandidate(nodes, true, read)
    case Some(i) => read(nodes[i])
    case None =>
      match FirstCandidate(nodes, false, read)
      case Some(i) => read(nodes[i])
      case None => Xyz(None, None, None)
  }

  /** `scenes`: the `Scenes//Scene` matches, or all `Scene` elements when there are none. */
  function SceneList(nested: seq<Node>, any: seq<Node>): (r: seq<Node>)
    ensures |nested| > 0 ==> r == nested
    ensures |nested| == 0 ==> r == any
  {
    if |nested| > 0 then nested else any
  }

  /** The inner `for node in scene.iter(): ... break` loop. */
  method FindCandidate(nodes: seq<Node>, tagged: bool, read: Node -> Xyz) returns (found: bool, p: Xyz)
    ensures found <==> FirstCandidate(nodes, tagged, read).Some?
    ensures found ==> p == read(nodes[FirstCandidate(nodes, tagged, read).value])
    ensures !found ==> p == Xyz(None, None, None)
  {
    found := false;
    p := Xyz(None, None, None);
    var i := 0;
    while i < |nodes|
      invariant 0 <= i <= |nodes|
      invariant forall j :: 0 <= j < i ==> !Candidate(nodes[j], tagged, read)
    {
      if Candidate(nodes[i], tagged, read) {
        p := read(nodes[i]);
        found := true;
        FirstCandidateAt(nodes, tagged, read, i);
        return;
      }
      i := i + 1;
    }
  }

  lemma {:induction false} FirstCandidateAt(nodes: seq<Node>, tagged: bool, read: Node -> Xyz, i: nat)
    requires i < |nodes| && Candidate(nodes[i], tagged, read)
    requires forall j :: 0 <= j < i ==> !Candidate(nodes[j], tagged, read)
    ensures FirstCandidate(nodes, tagged, read) == Some(i)
  {
    var r := FirstCandidate(nodes, tagged, read);
    assert r.Some? && r.value == i by {
      assert !(r.Some? && r.value < i);
      assert !(r.Some? && r.value > i);
    }
  }

  /** One scene: the tagged search, then (when it found nothing) the search over all nodes. */
  method LocateScene(scene: Node, read: Node -> Xyz) returns (p: Xyz)
    ensures p == Locate(scene, read)
  {
    var nodes := Iter(scene);
    var found;
    found, p := FindCandidate(nodes, true, read);
    if !found {
      found, p := FindCandidate(nodes, false, read);
    }
  }

  /** `parse_scene_positions(root)`. */
  method ParseScenePositions(nested: seq<Node>, any: seq<Node>, parse: string -> Option<real>)
    returns (results: seq<ScenePos>)
    ensures |results| == |SceneList(nested, any)|
    ensures forall i :: 0 <= i < |results| ==> results[i].sceneIndex == i
    ensures forall i :: 0 <= i < |results| ==>
      Xyz(results[i].x, results[i].y, results[i].z) == Locate(SceneList(nested, any)[i], Reader(parse))
  {
    var scenes := nested;
    if |scenes| == 0 {
      scenes := any;
    }
    assert scenes == SceneList(nested, any);
    var read := Reader(parse);
    results := [];
    for idx := 0 to |scenes|
      invariant |results| == idx
      invariant forall i :: 0 <= i < idx ==>
        results[i].sceneIndex == i && Xyz(results[i].x, results[i].y, results[i].z) == Locate(scenes[i], read)
    {
      var p := LocateScene(scenes[idx], read);
      results := results + [ScenePos(idx, p.x, p.y, p.z)];
    }
  }

  /**
   * What a scene's coordinates mean: those of the first position-tagged node
   * with a coordinate; failing that, of the first node with a coordinate;
   * otherwise none at all.
   */
  lemma SceneChoice(nodes: seq<Node>, read: Node -> Xyz, i: nat)
    requires i < |nodes|
    ensures Candidate(nodes[i], true, read) && (forall j :: 0 <= j < i ==> !Candidate(nodes[j], true, read)) ==>
      Choose(nodes, read) == read(nodes[i])
    ensures ((forall j :: 0 <= j < |nodes| ==> !Candidate(nodes[j], true, read)) &&
             HasCoordinate(read(nodes[i])) && (forall j :: 0 <= j < i ==> !HasCoordinate(read(nodes[j]))))
      ==> Choose(nodes, read) == read(nodes[i])
  {
    if Candidate(nodes[i], true, read) && (forall j :: 0 <= j < i ==> !Candidate(nodes[j], true, read)) {
      FirstCandidateAt(nodes, true, read, i);
    }
    if HasCoordinate(read(nodes[i])) && (forall j :: 0 <= j < i ==> !Candidate(nodes[j], false, read)) {
      FirstCandidateAt(nodes, false, read, i);
    }
  }

  /** A scene has coordinates exactly when one of its nodes has one. */
  lemma SceneHasCoordinate(nodes: seq<Node>, read: Node -> Xyz)
    ensures HasCoordinate(Choose(nodes, read)) <==> exists i :: 0 <= i < |nodes| && HasCoordinate(read(nodes[i]))
  {
    var t := FirstCandidate(nodes, true, read);
    var a := FirstCandidate(nodes, false, read);
    if t.Some? {
      assert HasCoordinate(read(nodes[t.value]));
    } else if a.Some? {
      assert HasCoordinate(read(nodes[a.value]));
    } else {
      forall i | 0 <= i < |nodes| ensures !HasCoordinate(read(nodes[i])) {
        assert !Candidate(nodes[i], false, read);
      }
    }
  }
}
