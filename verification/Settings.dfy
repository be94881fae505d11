/** The layered settings of `discovery.py`: `_deep_merge` and the order in which layers are merged. */
module Settings {
  import opened Prelude

  type Key = string
  type Path = seq<Key>

  /** A JSON document as the merge sees it: a map, or anything else. */
  datatype Json = Leaf(text: string) | Object(fields: map<Key, Json>)

  /** What `_deep_merge` leaves where `incoming` meets `target`: it descends only into two maps. */
  function Overlay(target: Json, incoming: Json): Json
    decreases incoming
  {
    if target.Object? && incoming.Object? then
      Object(map k | k in target.fields.Keys + incoming.fields.Keys ::
        if k !in incoming.fields then target.fields[k]
        else if k !in target.fields then incoming.fields[k]
        else Overlay(target.fields[k], incoming.fields[k]))
    else incoming
  }

  function Lookup(doc: Json, path: Path): Option<Json> {
    if path == [] then Some(doc)
    else if doc.Object? && path[0] in doc.fields then Lookup(doc.fields[path[0]], path[1..])
    else None
  }

  /** `doc` decides what is found at `path`: it has a value there, or something else than a map above it. */
  predicate Covers(doc: Json, path: Path) {
    if path == [] || doc.Leaf? then true
    else path[0] in doc.fields && Covers(doc.fields[path[0]], path[1..])
  }

  /** A document that sets one thing. */
  function Setting(path: Path, value: Json): Json {
    if path == [] then value else Object(map[path[0] := Setting(path[1..], value)])
  }

  /** Whatever is below, what a layer sets is found where it sets it; and alone it sets nothing else. */
  lemma {:induction false} SettingIsFound(below: Json, path: Path, other: Path, leaf: Json)
    requires leaf.Leaf?
    ensures Lookup(Overlay(below, Setting(path, leaf)), path) == Some(leaf)
    ensures Lookup(Setting(path, leaf), other) == Some(leaf) <==> other == path
    decreases |path|
  {
    if path != [] {
      var nested := if below.Object? && path[0] in below.fields then below.fields[path[0]] else leaf;
      SettingIsFound(nested, path[1..], if other == [] then [] else other[1..], leaf);
      assert other != [] && other[0] == path[0] && other[1..] == path[1..] ==> other == path;
      assert Overlay(leaf, Setting(path[1..], leaf)) == Setting(path[1..], leaf);
    }
  }

  /** The loop over the incoming items, which overwrites one entry of the target after the other. */
  method DeepMerge(target: map<Key, Json>, incoming: map<Key, Json>) returns (merged: map<Key, Json>)
    ensures Object(merged) == Overlay(Object(target), Object(incoming))
    decreases Object(incoming)
  {
    merged := target;
    var todo := incoming.Keys;
    while todo != {}
      invariant todo <= incoming.Keys
      invariant merged.Keys == target.Keys + (incoming.Keys - todo)
      invariant forall k :: k in merged && k in incoming && k !in todo ==>
                  merged[k] == if k in target then Overlay(target[k], incoming[k]) else incoming[k]
      invariant forall k :: k in target && (k !in incoming || k in todo) ==> merged[k] == target[k]
      decreases todo
    {
      var key :| key in todo;
      var value := incoming[key];
      if key in merged && merged[key].Object? && value.Object? {
        var nested := DeepMerge(merged[key].fields, value.fields);
        merged := merged[key := Object(nested)];
      } else {
        merged := merged[key := value];
      }
      todo := todo - {key};
    }
  }

  /**
    A leaf is found after the merge exactly when the incoming document has it at the same path, or the
    target has it and the incoming document does not decide that path.
   */
  lemma {:induction false} MergedLeaves(target: Json, incoming: Json, path: Path, leaf: Json)
    requires leaf.Leaf?
    ensures Lookup(Overlay(target, incoming), path) == Some(leaf) <==>
              Lookup(incoming, path) == Some(leaf)
              || (Lookup(target, path) == Some(leaf) && !Covers(incoming, path))
    decreases path
  {
    if path != [] && target.Object? && incoming.Object? {
      var k := path[0];
      if k in target.fields && k in incoming.fields {
        MergedLeaves(target.fields[k], incoming.fields[k], path[1..], leaf);
      } else if k in incoming.fields {
        LeafIsCovered(incoming.fields[k], path[1..], leaf);
      }
    } else {
      LeafIsCovered(incoming, path, leaf);
    }
  }

  lemma {:induction false} LeafIsCovered(doc: Json, path: Path, leaf: Json)
    ensures Lookup(doc, path) == Some(leaf) ==> Covers(doc, path)
    decreases path
  {
    if path != [] && doc.Object? && path[0] in doc.fields {
      LeafIsCovered(doc.fields[path[0]], path[1..], leaf);
    }
  }

  // ----- layers -----------------------------------------------------------------------------------------

  /** Later layers are merged over earlier ones, starting from an empty map. */
  function Layered(layers: seq<Json>): Json {
    if layers == [] then Object(map[])
    else Overlay(Layered(layers[..|layers| - 1]), layers[|layers| - 1])
  }

  ghost predicate Decides(layers: seq<Json>, k: nat, path: Path, leaf: Json) {
    k < |layers| && Lookup(layers[k], path) == Some(leaf)
    && forall j :: k < j < |layers| ==> !Covers(layers[j], path)
  }

  /** A leaf of the merged settings comes from the last layer that decides its path, and only from there. */
  lemma {:induction false} LastDecidingLayerWins(layers: seq<Json>, path: Path, leaf: Json)
    requires leaf.Leaf?
    ensures Lookup(Layered(layers), path) == Some(leaf) <==> exists k: nat :: Decides(layers, k, path, leaf)
  {
    if layers == [] {
    } else {
      var front, last := layers[..|layers| - 1], layers[|layers| - 1];
      LastDecidingLayerWins(front, path, leaf);
      MergedLeaves(Layered(front), last, path, leaf);
      if Lookup(last, path) == Some(leaf) {
        assert Decides(layers, |layers| - 1, path, leaf);
      }
      if Lookup(Layered(front), path) == Some(leaf) && !Covers(last, path) {
        var k: nat :| Decides(front, k, path, leaf);
        assert Decides(layers, k, path, leaf);
      }
      if exists k: nat :: Decides(layers, k, path, leaf) {
        var k: nat :| Decides(layers, k, path, leaf);
        assert k < |front| ==> Decides(front, k, path, leaf);
      }
    }
  }

  /** The files in the order in which `_claude_settings` reads them; `projects` runs from the root down. */
  datatype Files = Files(user: Json, projects: seq<Json>, local: Json, managed: Json, dropIns: seq<Json>)

  function ManagedSettings(f: Files): Json { Layered([f.managed] + f.dropIns) }

  function ClaudeSettings(f: Files): Json {
    Overlay(Layered([f.user] + f.projects + [f.local]), ManagedSettings(f))
  }

  method ReadClaudeSettings(f: Files) returns (settings: map<Key, Json>)
    requires f.user.Object? && f.local.Object? && f.managed.Object?
    requires forall i :: 0 <= i < |f.projects| ==> f.projects[i].Object?
    requires forall i :: 0 <= i < |f.dropIns| ==> f.dropIns[i].Object?
    ensures Object(settings) == ClaudeSettings(f)
  {
    var below := [f.user] + f.projects + [f.local];
    settings := MergeAll(below);
    var managed := MergeAll([f.managed] + f.dropIns);
    settings := DeepMerge(settings, managed);
  }

  method MergeAll(layers: seq<Json>) returns (merged: map<Key, Json>)
    requires forall i :: 0 <= i < |layers| ==> layers[i].Object?
    ensures Object(merged) == Layered(layers)
  {
    merged := map[];
    for i := 0 to |layers|
      invariant Object(merged) == Layered(layers[..i])
    {
      merged := DeepMerge(merged, layers[i].fields);
      assert layers[..i + 1][..i] == layers[..i];
    }
    assert layers[..|layers|] == layers;
  }

  /** A leaf stands in the layer, or the layer does not touch its path and what is `below` is so. */
  ghost predicate Over(layer: Json, path: Path, leaf: Json, below: bool) {
    Lookup(layer, path) == Some(leaf) || (!Covers(layer, path) && below)
  }

  /**
    Where a setting comes from: the managed files, the last drop-in first; else the local file; else the project
    that is furthest down; else the user's file.
   */
  lemma SettingsPrecedence(f: Files, path: Path, leaf: Json)
    requires leaf.Leaf?
    ensures Lookup(ClaudeSettings(f), path) == Some(leaf) <==>
              || (exists k: nat :: Decides([f.managed] + f.dropIns, k, path, leaf))
              || (!Covers(ManagedSettings(f), path)
                  && Over(f.local, path, leaf,
                          || (exists k: nat :: Decides(f.projects, k, path, leaf))
                          || ((forall p <- f.projects :: !Covers(p, path)) && Lookup(f.user, path) == Some(leaf))))
  {
    var below := [f.user] + f.projects + [f.local];
    MergedLeaves(Layered(below), ManagedSettings(f), path, leaf);
    LastDecidingLayerWins([f.managed] + f.dropIns, path, leaf);
    LastDecidingLayerWins(below, path, leaf);
    LocalOverProjects(f, path, leaf);
  }

  lemma LocalOverProjects(f: Files, path: Path, leaf: Json)
    requires leaf.Leaf?
    ensures (exists k: nat :: Decides([f.user] + f.projects + [f.local], k, path, leaf)) <==>
              Over(f.local, path, leaf,
                   || (exists k: nat :: Decides(f.projects, k, path, leaf))
                   || ((forall p <- f.projects :: !Covers(p, path)) && Lookup(f.user, path) == Some(leaf)))
  {
    var below, n := [f.user] + f.projects + [f.local], |f.projects|;
    assert below[0] == f.user && below[n + 1] == f.local;
    assert forall i :: 0 <= i < n ==> below[i + 1] == f.projects[i];
    if k: nat :| Decides(below, k, path, leaf) {
      LeafIsCovered(below[k], path, leaf);
      if 0 < k <= n {
        assert forall j :: k - 1 < j < n ==> f.projects[j] == below[j + 1];
        assert Decides(f.projects, k - 1, path, leaf);
      }
      if k == 0 {
        forall p | p in f.projects ensures !Covers(p, path) {
          var i :| 0 <= i < n && f.projects[i] == p;
          assert below[i + 1] == p;
        }
      }
    }
    if Lookup(f.local, path) == Some(leaf) {
      assert Decides(below, n + 1, path, leaf);
    } else if !Covers(f.local, path) {
      if k: nat :| Decides(f.projects, k, path, leaf) {
        forall j | k + 1 < j < |below| ensures !Covers(below[j], path) {
          if j <= n { assert below[j] == f.projects[j - 1]; }
        }
        assert Decides(below, k + 1, path, leaf);
      } else if (forall p <- f.projects :: !Covers(p, path)) && Lookup(f.user, path) == Some(leaf) {
        forall j | 0 < j < |below| ensures !Covers(below[j], path) {
          if j <= n { assert below[j] == f.projects[j - 1] && f.projects[j - 1] in f.projects; }
        }
        assert Decides(below, 0, path, leaf);
      }
    }
  }

  /** Every leaf of the managed settings wins over all user, project and local layers. */
  lemma ManagedLeafWins(f: Files, path: Path, leaf: Json)
    requires leaf.Leaf? && Lookup(ManagedSettings(f), path) == Some(leaf)
    ensures Lookup(ClaudeSettings(f), path) == Some(leaf)
  {
    MergedLeaves(Layered([f.user] + f.projects + [f.local]), ManagedSettings(f), path, leaf);
  }

  /** A drop-in's leaf wins unless a later drop-in decides its path: the order of their names counts. */
  lemma LastDropInWins(f: Files, k: nat, path: Path, leaf: Json)
    requires leaf.Leaf? && k < |f.dropIns| && Lookup(f.dropIns[k], path) == Some(leaf)
    requires forall j :: k < j < |f.dropIns| ==> !Covers(f.dropIns[j], path)
    ensures Lookup(ClaudeSettings(f), path) == Some(leaf)
  {
    var layers := [f.managed] + f.dropIns;
    assert Decides(layers, k + 1, path, leaf);
    LastDecidingLayerWins(layers, path, leaf);
    ManagedLeafWins(f, path, leaf);
  }

  function Single(k: Key, value: Json): Json { Object(map[k := value]) }

  lemma OverlaySingle(k: Key, p: Json, q: Json)
    ensures Overlay(Single(k, p), Single(k, q)) == Single(k, Overlay(p, q))
  {
  }

  /** The grouping of the merges matters, which is why the managed layers are merged on their own. */
  lemma MergeIsNotAssociative(k: Key, x: Key, y: Key, p: Json, q: Json)
    requires x != y
    ensures var a, b, c := Single(k, Single(x, p)), Single(k, Leaf("off")), Single(k, Single(y, q));
            Overlay(Overlay(a, b), c) != Overlay(a, Overlay(b, c))
  {
    var a, b, c := Single(k, Single(x, p)), Single(k, Leaf("off")), Single(k, Single(y, q));
    OverlaySingle(k, Single(x, p), Leaf("off"));
    OverlaySingle(k, Leaf("off"), Single(y, q));
    assert Overlay(a, b) == b && Overlay(b, c) == c;
    OverlaySingle(k, Single(x, p), Single(y, q));
    assert x in Overlay(Single(x, p), Single(y, q)).fields;
    assert x !in Single(y, q).fields;
    assert Overlay(a, c).fields[k] != c.fields[k];
  }
}
