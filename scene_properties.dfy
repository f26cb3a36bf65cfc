/** What binding followed by drawing guarantees about the frame. */
module SceneProperties {
  import opened Gltf
  import opened GlTrace
  import opened SceneBinder
  import opened BinderHandles
  import opened SceneRenderer

  /** Every primitive of the node's mesh, if it has one, takes its indices
      from an element-array buffer view. */
  predicate IndexedByElements(d: Document, n: int)
    requires WellFormed(d) && 0 <= n < |d.nodes|
  {
    HasMesh(d, n) ==>
      assert MeshOf(d, n) in d.meshes;
      forall p :: p in MeshOf(d, n).primitives ==> d.accessors[p.indices].bufferView in ElementViews(d)
  }

  /** Drawing what bindModel returned throws no lookup failure exactly when
      every visited primitive takes its indices from an element-array view:
      the cleanup keeps only those views in the map. */
  lemma BindThenDrawOk(d: Document, rank: seq<nat>, s: GlState, vao: nat, tex: nat)
    requires Tree(d, rank)
    ensures DrawModelSpec(d, rank, vao, BindModelSpec(d, rank, s).vbos, tex).ok <==>
            forall x :: x in Visit(d, rank) ==> IndexedByElements(d, x)
  {
    var vis := Visit(d, rank);
    var vbos := BindModelSpec(d, rank, s).vbos;
    BindModelKeys(d, rank, s);
    DrawModelShape(d, rank, vao, vbos, tex);
    if AnyMeshed(d, vis) {
      forall x | x in vis ensures NodeDrawable(d, vbos, x) <==> IndexedByElements(d, x) {
        if HasMesh(d, x) {
          assert MeshOf(d, x) in d.meshes;
        }
      }
    } else {
      forall x | x in vis ensures !HasMesh(d, x) {
        var j :| 0 <= j < |vis| && vis[j] == x;
      }
    }
  }

  /** Every name bindModel returns belongs to a buffer it generated after the
      vertex array. */
  lemma BoundNamesGenerated(d: Document, rank: seq<nat>, s: GlState)
    requires Tree(d, rank)
    ensures var r := BindModelSpec(d, rank, s);
            forall k :: k in r.vbos ==> s.next < r.vbos[k] && GenBuffer(r.vbos[k]) in r.gl.trace
  {
    var s1 := GlState(s.next + 1, s.trace + [GenVertexArray(s.next), BindVertexArray(s.next)], s.texid);
    var b0 := Binding(map[], s1);
    var vis := Visit(d, rank);
    var b := BindVisit(d, vis, b0);
    var e := Binding(b.vbos, Emitted(b.gl, [BindVertexArray(0)]));
    var r := Cleanup(d, e);
    assert r == BindModelSpec(d, rank, s);
    BindModelKeys(d, rank, s);
    if AnyMeshed(d, vis) {
      BindVisitHandles(d, vis, b0);
      assert r.gl.trace == b.gl.trace + [BindVertexArray(0)] + Deleted(d, |d.bufferViews|, e.vbos);
      forall k | k in r.vbos ensures s.next < r.vbos[k] && GenBuffer(r.vbos[k]) in r.gl.trace {
        assert k in NonZeroViews(d, |d.bufferViews|);
        PrefixMember(b.gl.trace, r.gl.trace, GenBuffer(b.vbos[k]));
      }
    }
  }

  /** Every draw of the frame reads its indices from a buffer that bindModel
      generated and kept for an element-array view. */
  lemma DrawsUseBoundBuffers(d: Document, rank: seq<nat>, s: GlState, vao: nat, tex: nat)
    requires Tree(d, rank)
    ensures var b := BindModelSpec(d, rank, s);
            var r := DrawModelSpec(d, rank, vao, b.vbos, tex);
            forall k :: 0 <= k < |r.cmds| && r.cmds[k].DrawElements? ==>
              && GenBuffer(r.cmds[k].indexBuffer) in b.gl.trace
              && exists i :: i in ElementViews(d) && i in b.vbos && b.vbos[i] == r.cmds[k].indexBuffer
  {
    var b := BindModelSpec(d, rank, s);
    var r := DrawModelSpec(d, rank, vao, b.vbos, tex);
    DrawModelShape(d, rank, vao, b.vbos, tex);
    BoundNamesGenerated(d, rank, s);
    BindModelKeys(d, rank, s);
    forall k | 0 <= k < |r.cmds| && r.cmds[k].DrawElements?
      ensures GenBuffer(r.cmds[k].indexBuffer) in b.gl.trace
      ensures exists i :: i in ElementViews(d) && i in b.vbos && b.vbos[i] == r.cmds[k].indexBuffer
    {
      assert k != 0;
      assert r.ok ==> k != |r.cmds| - 1;
      var i :| i in b.vbos && b.vbos[i] == r.cmds[k].indexBuffer;
    }
  }

  /** A two-node scene: root 0 has no mesh and one child, node 1, whose mesh
      has one triangle primitive indexed from view 0 with positions in view 1. */
  const Example: Document := Document(
    [Node(-1, [1]), Node(0, [])],
    [Mesh([Primitive(4, 0, [Attribute("POSITION", 1)])])],
    [Accessor(0, 0, UNSIGNED_SHORT_INDEX, 3, TYPE_SCALAR, false), Accessor(1, 0, FLOAT_COMPONENT, 3, 3, false)],
    [BufferView(0, 0, 6, ELEMENT_ARRAY_BUFFER), BufferView(0, 8, 36, ARRAY_BUFFER)],
    [], [], [Scene([0])], 0)

  const UNSIGNED_SHORT_INDEX: int := 5123
  const FLOAT_COMPONENT: int := 5126

  /** The example is well formed and node 1, the only child, ranks below its
      parent node 0. */
  lemma ExampleIsTree()
    ensures Tree(Example, [1, 0])
  {
    var d := Example;
    assert Roots(d) == [0];
    assert d.meshes[0].primitives[0] in d.meshes[0].primitives;
    assert MeshOk(d, d.meshes[0]);
  }

  /** The walk visits the root 0, then its child 1. */
  lemma ExampleTree()
    ensures Tree(Example, [1, 0])
    ensures Visit(Example, [1, 0]) == [0, 1]
  {
    ExampleIsTree();
    var d: Document, rank: seq<nat> := Example, [1, 0];
    assert Pre(d, rank, 1) == [1];
    assert PreChildren(d, rank, 0, 1) == [1];
    assert Pre(d, rank, 0) == [0, 1];
    assert PreRoots(d, rank, 1) == [0, 1];
  }

  /** The trace after the vertex array is generated and bound in a fresh context. */
  const ExampleStart: GlState := GlState(2, [GenVertexArray(1), BindVertexArray(1)], 0)

  /** bindMesh on the example's only mesh: both views are uploaded, and
      attribute 0 reads three floats per vertex from the position buffer. */
  lemma ExampleMesh()
    ensures MeshOk(Example, Example.meshes[0]) && TextureOk(Example)
    ensures BindMeshSpec(Example, Example.meshes[0], Binding(map[], ExampleStart))
            == Binding(map[0 := 2, 1 := 3],
                       Emitted(ExampleStart, [GenBuffer(2), BufferData(ELEMENT_ARRAY_BUFFER, 2, 0, 6),
                                              GenBuffer(3), BufferData(ARRAY_BUFFER, 3, 8, 36),
                                              BindArrayBuffer(3), EnableAttrib(0, 3, FLOAT_COMPONENT, false, 0)]).(next := 4))
  {
    var d, b0 := Example, Binding(map[], ExampleStart);
    var u1 := Binding(map[0 := 2], GlState(3, ExampleStart.trace + [GenBuffer(2), BufferData(ELEMENT_ARRAY_BUFFER, 2, 0, 6)], 0));
    assert UploadViews(d, 1, b0) == u1;
    var u := Binding(map[0 := 2, 1 := 3], GlState(4, u1.gl.trace + [GenBuffer(3), BufferData(ARRAY_BUFFER, 3, 8, 36)], 0));
    assert UploadViews(d, 2, b0) == u;
    var mesh := d.meshes[0];
    var p := mesh.primitives[0];
    assert AttribSlot("POSITION") == 0;
    assert BindAttribs(d, p, 0, u) == u;
    var a := Binding(u.vbos, Emitted(u.gl, [BindArrayBuffer(3), EnableAttrib(0, 3, FLOAT_COMPONENT, false, 0)]));
    assert BindAttribs(d, p, 1, u) == a;
    assert TextureStep(d, a) == a;
    assert BindPrims(d, mesh, 0, u) == u;
    assert BindPrims(d, mesh, 1, u) == a;
  }

  /** Node 1, the second node the walk visits, has a mesh, and view 0 is the
      example's only element-array view. */
  lemma ExampleMeshedViews()
    ensures Tree(Example, [1, 0])
    ensures AnyMeshed(Example, Visit(Example, [1, 0]))
    ensures ElementViews(Example) == {0}
  {
    ExampleTree();
    assert Visit(Example, [1, 0])[1] == 1;
  }

  /** Whatever the GPU state, binding the example keeps exactly view 0, the
      index view, in the map. */
  lemma ExampleKeys(s: GlState)
    ensures Tree(Example, [1, 0])
    ensures BindModelSpec(Example, [1, 0], s).vbos.Keys == {0}
  {
    ExampleMeshedViews();
    BindModelKeys(Example, [1, 0], s);
  }

  /** The cleanup of the example erases view 1, whose target is ARRAY_BUFFER. */
  lemma ExampleCleanup(e: Binding)
    requires e.vbos == map[0 := 2, 1 := 3]
    ensures Cleanup(Example, e) == Binding(map[0 := 2], Emitted(e.gl, [DeleteBuffer(3)]))
  {
    var d := Example;
    assert CleanupFrom(d, 0, e) == e;
    assert CleanupFrom(d, 1, e) == e;
    assert map[0 := 2, 1 := 3] - {1} == map[0 := 2];
    assert Deleted(d, 1, e.vbos) == [];
    assert Deleted(d, 2, e.vbos) == [DeleteBuffer(3)];
  }

  /** Drawing the bound example issues exactly one draw, from buffer 2. */
  lemma ExampleDraw()
    ensures Tree(Example, [1, 0])
    ensures DrawModelSpec(Example, [1, 0], 1, map[0 := 2], 0)
              == Drawn([BindVertexArray(1), DrawElements(4, 3, UNSIGNED_SHORT_INDEX, 0, 2, 0), BindVertexArray(0)], true)
  {
    var d := Example;
    ExampleTree();
    assert [0, 1][..1] == [0];
    assert DrawVisit(d, map[0 := 2], 0, [0]) == Drawn([], true);
    var mesh := d.meshes[0];
    assert DrawPrims(d, map[0 := 2], 0, mesh, 1) == Drawn([DrawElements(4, 3, UNSIGNED_SHORT_INDEX, 0, 2, 0)], true);
  }

  /** From a fresh context, bindModel on the example leaves view 0 mapped to
      buffer 2, and drawing with that map and vertex array 1 issues exactly
      one draw, from buffer 2. */
  lemma ExampleBindThenDraw()
    ensures Tree(Example, [1, 0])
    ensures var vbos := BindModelSpec(Example, [1, 0], GlState(1, [], 0)).vbos;
            && vbos == map[0 := 2]
            && DrawModelSpec(Example, [1, 0], 1, vbos, 0)
               == Drawn([BindVertexArray(1), DrawElements(4, 3, UNSIGNED_SHORT_INDEX, 0, 2, 0), BindVertexArray(0)], true)
  {
    var d, b0 := Example, Binding(map[], ExampleStart);
    ExampleTree();
    ExampleMesh();
    ExampleDraw();
    assert [0, 1][..1] == [0];
    assert BindVisit(d, [0], b0) == b0;
    var bm := BindMeshSpec(d, d.meshes[0], b0);
    assert BindVisit(d, [0, 1], b0) == bm;
    var e := Binding(bm.vbos, Emitted(bm.gl, [BindVertexArray(0)]));
    ExampleCleanup(e);
    assert GlState(2, [] + [GenVertexArray(1), BindVertexArray(1)], 0) == ExampleStart;
  }
}
