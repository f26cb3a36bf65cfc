/** Drawing a bound model: the same pre-order walk as binding, one indexed draw
    per primitive of every meshed node. Looking the index buffer up with
    `std::map::at` throws when the view has no buffer; the exception leaves
    the commands issued so far in place and abandons the rest of the frame. */
module SceneRenderer {
  import opened Gltf
  import opened GlTrace

  /** Commands issued, and whether drawing got through without a failed lookup. */
  datatype Drawn = Drawn(cmds: seq<Cmd>, ok: bool)

  /** The index buffer of `p` has a name in the map. */
  predicate IndexMapped(d: Document, vbos: map<int, nat>, p: Primitive)
    requires PrimitiveOk(d, p)
  {
    d.accessors[p.indices].bufferView in vbos
  }

  /** Every primitive of the node's mesh, if it has one, can be drawn. */
  predicate NodeDrawable(d: Document, vbos: map<int, nat>, n: int)
    requires WellFormed(d) && 0 <= n < |d.nodes|
  {
    HasMesh(d, n) ==>
      assert MeshOf(d, n) in d.meshes;
      forall p :: p in MeshOf(d, n).primitives ==> IndexMapped(d, vbos, p)
  }

  /** The draw of one primitive: its index buffer, the current texture, and
      mode, count, component type and byte offset of its index accessor. */
  function DrawOf(d: Document, vbos: map<int, nat>, tex: nat, p: Primitive): Cmd
    requires PrimitiveOk(d, p) && IndexMapped(d, vbos, p)
  {
    var acc := d.accessors[p.indices];
    DrawElements(p.mode, acc.count, acc.componentType, acc.byteOffset, vbos[acc.bufferView], tex)
  }

  /** drawMesh over the first `j` primitives. */
  function DrawPrims(d: Document, vbos: map<int, nat>, tex: nat, mesh: Mesh, j: nat): (r: Drawn)
    requires MeshOk(d, mesh) && j <= |mesh.primitives|
    ensures r.ok <==> forall k :: 0 <= k < j ==> IndexMapped(d, vbos, mesh.primitives[k])
    ensures r.ok ==> |r.cmds| == j
    ensures forall k :: 0 <= k < |r.cmds| ==>
              && k < j && IndexMapped(d, vbos, mesh.primitives[k])
              && r.cmds[k] == DrawOf(d, vbos, tex, mesh.primitives[k])
  {
    if j == 0 then Drawn([], true)
    else
      var q := DrawPrims(d, vbos, tex, mesh, j - 1);
      var p := mesh.primitives[j - 1];
      if !q.ok then q
      else if !IndexMapped(d, vbos, p) then Drawn(q.cmds, false)
      else Drawn(q.cmds + [DrawOf(d, vbos, tex, p)], true)
  }

  /** Number of draws a walk issues when no lookup fails. */
  function DrawCount(d: Document, vis: seq<int>): nat
    requires forall x :: x in vis ==> 0 <= x < |d.nodes|
  {
    if vis == [] then 0
    else
      var init, x := vis[..|vis| - 1], vis[|vis| - 1];
      assert x in vis;
      assert forall y :: y in init ==> y in vis;
      DrawCount(d, init) + if HasMesh(d, x) then |MeshOf(d, x).primitives| else 0
  }

  /** Drawing the nodes of `vis` in order; the first failed lookup stops it. */
  function DrawVisit(d: Document, vbos: map<int, nat>, tex: nat, vis: seq<int>): Drawn
    requires WellFormed(d) && forall x :: x in vis ==> 0 <= x < |d.nodes|
  {
    if vis == [] then Drawn([], true)
    else
      var init, x := vis[..|vis| - 1], vis[|vis| - 1];
      assert vis == init + [x] && x in vis;
      assert forall y :: y in init ==> y in vis;
      var q := DrawVisit(d, vbos, tex, init);
      if !q.ok || !HasMesh(d, x) then q
      else
        assert MeshOf(d, x) in d.meshes;
        var m := DrawPrims(d, vbos, tex, MeshOf(d, x), |MeshOf(d, x).primitives|);
        Drawn(q.cmds + m.cmds, m.ok)
  }

  /** drawModel: bind the vertex array, draw the default scene, unbind it. An
      exception in the walk skips the unbinding. */
  function DrawModelSpec(d: Document, rank: seq<nat>, vao: nat, vbos: map<int, nat>, tex: nat): Drawn
    requires Tree(d, rank)
  {
    var v := DrawVisit(d, vbos, tex, Visit(d, rank));
    if v.ok then Drawn([BindVertexArray(vao)] + v.cmds + [BindVertexArray(0)], true)
    else Drawn([BindVertexArray(vao)] + v.cmds, false)
  }

  /** Drawing a walk succeeds exactly when every node on it can be drawn. */
  lemma {:induction false} DrawVisitOk(d: Document, vbos: map<int, nat>, tex: nat, vis: seq<int>)
    requires WellFormed(d) && forall x :: x in vis ==> 0 <= x < |d.nodes|
    ensures DrawVisit(d, vbos, tex, vis).ok <==> forall x :: x in vis ==> NodeDrawable(d, vbos, x)
  {
    if vis != [] {
      var init, x := vis[..|vis| - 1], vis[|vis| - 1];
      assert vis == init + [x] && x in vis;
      assert forall y :: y in init ==> y in vis;
      DrawVisitOk(d, vbos, tex, init);
      assert (forall y :: y in vis ==> NodeDrawable(d, vbos, y)) <==>
             (forall y :: y in init ==> NodeDrawable(d, vbos, y)) && NodeDrawable(d, vbos, x);
      if HasMesh(d, x) {
        var prims := MeshOf(d, x).primitives;
        assert MeshOf(d, x) in d.meshes;
        assert (forall p :: p in prims ==> IndexMapped(d, vbos, p)) <==>
               (forall k :: 0 <= k < |prims| ==> IndexMapped(d, vbos, prims[k]));
      }
    }
  }

  /** A successful walk issues one draw per primitive of every meshed node,
      each with the current texture and an index buffer from the map. */
  lemma {:induction false} DrawVisitCmds(d: Document, vbos: map<int, nat>, tex: nat, vis: seq<int>)
    requires WellFormed(d) && forall x :: x in vis ==> 0 <= x < |d.nodes|
    ensures DrawVisit(d, vbos, tex, vis).ok ==> |DrawVisit(d, vbos, tex, vis).cmds| == DrawCount(d, vis)
    ensures forall c :: c in DrawVisit(d, vbos, tex, vis).cmds ==>
              c.DrawElements? && c.texture == tex && c.indexBuffer in vbos.Values
  {
    if vis != [] {
      var init, x := vis[..|vis| - 1], vis[|vis| - 1];
      assert x in vis && forall y :: y in init ==> y in vis;
      DrawVisitCmds(d, vbos, tex, init);
      var q := DrawVisit(d, vbos, tex, init);
      if q.ok && HasMesh(d, x) {
        assert MeshOf(d, x) in d.meshes;
        var m := DrawPrims(d, vbos, tex, MeshOf(d, x), |MeshOf(d, x).primitives|);
        forall c | c in m.cmds ensures c.DrawElements? && c.texture == tex && c.indexBuffer in vbos.Values {
          var k :| 0 <= k < |m.cmds| && m.cmds[k] == c;
        }
      }
    }
  }

  /** drawModel binds the vertex array first; when no lookup fails it issues
      one draw per visited primitive and unbinds the vertex array last. */
  lemma DrawModelShape(d: Document, rank: seq<nat>, vao: nat, vbos: map<int, nat>, tex: nat)
    requires Tree(d, rank)
    ensures var r := DrawModelSpec(d, rank, vao, vbos, tex);
            && (r.ok <==> forall x :: x in Visit(d, rank) ==> NodeDrawable(d, vbos, x))
            && |r.cmds| >= 1 && r.cmds[0] == BindVertexArray(vao)
            && (r.ok ==> |r.cmds| == DrawCount(d, Visit(d, rank)) + 2 && r.cmds[|r.cmds| - 1] == BindVertexArray(0))
            && forall k :: 0 < k < |r.cmds| && (k < |r.cmds| - 1 || !r.ok) ==>
                 r.cmds[k].DrawElements? && r.cmds[k].texture == tex && r.cmds[k].indexBuffer in vbos.Values
  {
    var vis := Visit(d, rank);
    DrawVisitOk(d, vbos, tex, vis);
    DrawVisitCmds(d, vbos, tex, vis);
    var v := DrawVisit(d, vbos, tex, vis);
    var r := DrawModelSpec(d, rank, vao, vbos, tex);
    forall k | 0 < k < |r.cmds| && (k < |r.cmds| - 1 || !r.ok)
      ensures r.cmds[k].DrawElements? && r.cmds[k].texture == tex && r.cmds[k].indexBuffer in vbos.Values
    {
      assert r.cmds[k] == v.cmds[k - 1];
    }
  }

  /** Once a lookup failed, drawing more primitives changes nothing. */
  lemma {:induction false} DrawPrimsSticky(d: Document, vbos: map<int, nat>, tex: nat, mesh: Mesh, i: nat, j: nat)
    requires MeshOk(d, mesh) && i <= j <= |mesh.primitives|
    requires !DrawPrims(d, vbos, tex, mesh, i).ok
    ensures DrawPrims(d, vbos, tex, mesh, j) == DrawPrims(d, vbos, tex, mesh, i)
    decreases j
  {
    if i < j {
      DrawPrimsSticky(d, vbos, tex, mesh, i, j - 1);
    }
  }

  /** A concatenated walk draws the second walk after the first, unless the
      first one failed. */
  lemma {:induction false} DrawVisitAppend(d: Document, vbos: map<int, nat>, tex: nat, a: seq<int>, c: seq<int>)
    requires WellFormed(d)
    requires forall x :: x in a ==> 0 <= x < |d.nodes|
    requires forall x :: x in c ==> 0 <= x < |d.nodes|
    ensures var ra := DrawVisit(d, vbos, tex, a);
            var rc := DrawVisit(d, vbos, tex, c);
            DrawVisit(d, vbos, tex, a + c) == if ra.ok then Drawn(ra.cmds + rc.cmds, rc.ok) else ra
  {
    if DrawVisit(d, vbos, tex, a).ok {
      AppendAfterOk(d, vbos, tex, a, c);
    } else {
      AppendAfterFailure(d, vbos, tex, a, c);
    }
  }

  lemma {:induction false} AppendAfterFailure(d: Document, vbos: map<int, nat>, tex: nat, a: seq<int>, c: seq<int>)
    requires WellFormed(d)
    requires forall x :: x in a ==> 0 <= x < |d.nodes|
    requires forall x :: x in c ==> 0 <= x < |d.nodes|
    requires !DrawVisit(d, vbos, tex, a).ok
    ensures DrawVisit(d, vbos, tex, a + c) == DrawVisit(d, vbos, tex, a)
    decreases |c|
  {
    if c == [] {
      assert a + c == a;
    } else {
      var c' := c[..|c| - 1];
      assert (a + c)[..|a + c| - 1] == a + c';
      assert forall y :: y in c' ==> y in c;
      AppendAfterFailure(d, vbos, tex, a, c');
    }
  }

  lemma {:induction false} AppendAfterOk(d: Document, vbos: map<int, nat>, tex: nat, a: seq<int>, c: seq<int>)
    requires WellFormed(d)
    requires forall x :: x in a ==> 0 <= x < |d.nodes|
    requires forall x :: x in c ==> 0 <= x < |d.nodes|
    requires DrawVisit(d, vbos, tex, a).ok
    ensures var ra, rc := DrawVisit(d, vbos, tex, a), DrawVisit(d, vbos, tex, c);
            DrawVisit(d, vbos, tex, a + c) == Drawn(ra.cmds + rc.cmds, rc.ok)
    decreases |c|
  {
    var ra := DrawVisit(d, vbos, tex, a);
    if c == [] {
      assert a + c == a;
      assert ra.cmds + [] == ra.cmds;
    } else {
      var c', x := c[..|c| - 1], c[|c| - 1];
      assert (a + c)[..|a + c| - 1] == a + c';
      assert (a + c)[|a + c| - 1] == x;
      assert forall y :: y in c' ==> y in c;
      assert x in c;
      AppendAfterOk(d, vbos, tex, a, c');
      var rc' := DrawVisit(d, vbos, tex, c');
      if rc'.ok && HasMesh(d, x) {
        assert MeshOf(d, x) in d.meshes;
        var m := DrawPrims(d, vbos, tex, MeshOf(d, x), |MeshOf(d, x).primitives|);
        assert ra.cmds + rc'.cmds + m.cmds == ra.cmds + (rc'.cmds + m.cmds);
      }
    }
  }

  /** A failed walk stays failed, with the same commands, when extended. */
  lemma DrawVisitSticky(d: Document, vbos: map<int, nat>, tex: nat, a: seq<int>, b: seq<int>)
    requires WellFormed(d) && forall x :: x in b ==> 0 <= x < |d.nodes|
    requires a <= b
    requires forall x :: x in a ==> 0 <= x < |d.nodes|
    requires !DrawVisit(d, vbos, tex, a).ok
    ensures DrawVisit(d, vbos, tex, b) == DrawVisit(d, vbos, tex, a)
  {
    var c := b[|a|..];
    assert b == a + c;
    assert forall x :: x in c ==> x in b;
    DrawVisitAppend(d, vbos, tex, a, c);
  }

  method DrawMesh(gl: Gl, vbos: map<int, nat>, d: Document, mesh: Mesh) returns (ok: bool)
    requires MeshOk(d, mesh)
    modifies gl
    ensures var r := DrawPrims(d, vbos, old(gl.texid), mesh, |mesh.primitives|);
            ok == r.ok && gl.State() == Emitted(old(gl.State()), r.cmds)
  {
    ghost var s := gl.State();
    for i := 0 to |mesh.primitives|
      invariant gl.State() == Emitted(s, DrawPrims(d, vbos, s.texid, mesh, i).cmds)
      invariant DrawPrims(d, vbos, s.texid, mesh, i).ok
    {
      var primitive := mesh.primitives[i];
      assert primitive in mesh.primitives;
      var indexAccessor := d.accessors[primitive.indices];
      if indexAccessor.bufferView !in vbos {
        // vbos.at throws std::out_of_range
        DrawPrimsSticky(d, vbos, s.texid, mesh, i + 1, |mesh.primitives|);
        return false;
      }
      gl.Emit(DrawElements(primitive.mode, indexAccessor.count, indexAccessor.componentType,
                           indexAccessor.byteOffset, vbos[indexAccessor.bufferView], gl.texid));
    }
    return true;
  }

  /** A one-node walk draws that node's mesh, if it has one. */
  lemma DrawVisitSingle(d: Document, vbos: map<int, nat>, tex: nat, n: int)
    requires WellFormed(d) && 0 <= n < |d.nodes|
    ensures HasMesh(d, n) ==> MeshOf(d, n) in d.meshes
    ensures DrawVisit(d, vbos, tex, [n]) ==
              if HasMesh(d, n) then DrawPrims(d, vbos, tex, MeshOf(d, n), |MeshOf(d, n).primitives|)
              else Drawn([], true)
  {
    assert [n][..0] == [];
  }

  method DrawModelNodes(gl: Gl, vbos: map<int, nat>, d: Document, ghost rank: seq<nat>, n: int) returns (ok: bool)
    requires Tree(d, rank) && 0 <= n < |d.nodes|
    modifies gl
    ensures var r := DrawVisit(d, vbos, old(gl.texid), Pre(d, rank, n));
            ok == r.ok && gl.State() == Emitted(old(gl.State()), r.cmds)
    decreases rank[n]
  {
    ghost var s := gl.State();
    ghost var tex := s.texid;
    var all := |d.nodes[n].children|;
    NodeDrawnFirst(d, rank, vbos, tex, n);
    if (d.nodes[n].mesh >= 0) && (d.nodes[n].mesh < |d.meshes|) {
      ok := DrawMesh(gl, vbos, d, d.meshes[d.nodes[n].mesh]);
      if !ok {
        return;
      }
    }
    for i := 0 to all
      invariant gl.State() == Emitted(s, DrawVisit(d, vbos, tex, [n] + PreChildren(d, rank, n, i)).cmds)
      invariant DrawVisit(d, vbos, tex, [n] + PreChildren(d, rank, n, i)).ok
    {
      ghost var mid := gl.State();
      ok := DrawModelNodes(gl, vbos, d, rank, d.nodes[n].children[i]);
      ChildDrawn(d, rank, vbos, n, i, s, mid, gl.State());
      if !ok {
        ChildFailed(d, rank, vbos, tex, n, i);
        return;
      }
    }
    return true;
  }

  /** drawModelNodes draws the node's own mesh before its children; a failure
      there ends the walk of the subtree. */
  lemma NodeDrawnFirst(d: Document, rank: seq<nat>, vbos: map<int, nat>, tex: nat, n: int)
    requires Tree(d, rank) && 0 <= n < |d.nodes|
    ensures Pre(d, rank, n) == [n] + PreChildren(d, rank, n, |d.nodes[n].children|)
    ensures HasMesh(d, n) ==> MeshOf(d, n) in d.meshes
    ensures DrawVisit(d, vbos, tex, [n] + PreChildren(d, rank, n, 0)) ==
              if HasMesh(d, n) then DrawPrims(d, vbos, tex, MeshOf(d, n), |MeshOf(d, n).primitives|)
              else Drawn([], true)
    ensures !DrawVisit(d, vbos, tex, [n] + PreChildren(d, rank, n, 0)).ok ==>
              DrawVisit(d, vbos, tex, Pre(d, rank, n)) == DrawVisit(d, vbos, tex, [n] + PreChildren(d, rank, n, 0))
  {
    var all := |d.nodes[n].children|;
    assert [n] + PreChildren(d, rank, n, 0) == [n];
    DrawVisitSingle(d, vbos, tex, n);
    if !DrawVisit(d, vbos, tex, [n]).ok {
      PreChildrenPrefix(d, rank, n, 0, all);
      DrawVisitSticky(d, vbos, tex, [n], Pre(d, rank, n));
    }
  }

  /** One turn of drawModelNodes' child loop, in terms of the walk. */
  lemma ChildDrawn(d: Document, rank: seq<nat>, vbos: map<int, nat>, n: int, i: nat, s: GlState, mid: GlState, after: GlState)
    requires Tree(d, rank) && 0 <= n < |d.nodes| && i < |d.nodes[n].children|
    requires mid == Emitted(s, DrawVisit(d, vbos, s.texid, [n] + PreChildren(d, rank, n, i)).cmds)
    requires DrawVisit(d, vbos, s.texid, [n] + PreChildren(d, rank, n, i)).ok
    requires after == Emitted(mid, DrawVisit(d, vbos, s.texid, Pre(d, rank, d.nodes[n].children[i])).cmds)
    ensures after == Emitted(s, DrawVisit(d, vbos, s.texid, [n] + PreChildren(d, rank, n, i + 1)).cmds)
    ensures DrawVisit(d, vbos, s.texid, [n] + PreChildren(d, rank, n, i + 1)).ok
              == DrawVisit(d, vbos, s.texid, Pre(d, rank, d.nodes[n].children[i])).ok
  {
    var tex := s.texid;
    var before := [n] + PreChildren(d, rank, n, i);
    var sub := Pre(d, rank, d.nodes[n].children[i]);
    AppendAfterOk(d, vbos, tex, before, sub);
    EmittedTwice(s, DrawVisit(d, vbos, tex, before).cmds, DrawVisit(d, vbos, tex, sub).cmds);
    NodeStep(d, rank, n, i);
  }

  /** A failure below the `i`-th child ends the walk of the whole subtree. */
  lemma ChildFailed(d: Document, rank: seq<nat>, vbos: map<int, nat>, tex: nat, n: int, i: nat)
    requires Tree(d, rank) && 0 <= n < |d.nodes| && i < |d.nodes[n].children|
    requires !DrawVisit(d, vbos, tex, [n] + PreChildren(d, rank, n, i + 1)).ok
    ensures DrawVisit(d, vbos, tex, Pre(d, rank, n)) == DrawVisit(d, vbos, tex, [n] + PreChildren(d, rank, n, i + 1))
  {
    NodePrefix(d, rank, n, i + 1);
    DrawVisitSticky(d, vbos, tex, [n] + PreChildren(d, rank, n, i + 1), Pre(d, rank, n));
  }

  /** One turn of drawModel's root loop, in terms of the walk. */
  lemma RootDrawn(d: Document, rank: seq<nat>, vbos: map<int, nat>, i: nat, s: GlState, tex: nat, mid: GlState, after: GlState)
    requires Tree(d, rank) && i < |Roots(d)|
    requires mid == Emitted(s, DrawVisit(d, vbos, tex, PreRoots(d, rank, i)).cmds)
    requires DrawVisit(d, vbos, tex, PreRoots(d, rank, i)).ok
    requires after == Emitted(mid, DrawVisit(d, vbos, tex, Pre(d, rank, Roots(d)[i])).cmds)
    ensures after == Emitted(s, DrawVisit(d, vbos, tex, PreRoots(d, rank, i + 1)).cmds)
    ensures DrawVisit(d, vbos, tex, PreRoots(d, rank, i + 1)).ok == DrawVisit(d, vbos, tex, Pre(d, rank, Roots(d)[i])).ok
  {
    var before := PreRoots(d, rank, i);
    var sub := Pre(d, rank, Roots(d)[i]);
    AppendAfterOk(d, vbos, tex, before, sub);
    EmittedTwice(s, DrawVisit(d, vbos, tex, before).cmds, DrawVisit(d, vbos, tex, sub).cmds);
    assert PreRoots(d, rank, i + 1) == before + sub;
  }

  /** A failure below the `i`-th root ends drawModel with what was emitted so far. */
  lemma RootFailed(d: Document, rank: seq<nat>, vbos: map<int, nat>, tex: nat, vao: nat, i: nat, s: GlState, after: GlState)
    requires Tree(d, rank) && i < |Roots(d)|
    requires !DrawVisit(d, vbos, tex, PreRoots(d, rank, i + 1)).ok
    requires after == Emitted(Emitted(s, [BindVertexArray(vao)]), DrawVisit(d, vbos, tex, PreRoots(d, rank, i + 1)).cmds)
    ensures var r := DrawModelSpec(d, rank, vao, vbos, tex);
            !r.ok && after == Emitted(s, r.cmds)
  {
    assert Visit(d, rank) == PreRoots(d, rank, |Roots(d)|);
    PreRootsPrefix(d, rank, i + 1, |Roots(d)|);
    DrawVisitSticky(d, vbos, tex, PreRoots(d, rank, i + 1), Visit(d, rank));
    EmittedTwice(s, [BindVertexArray(vao)], DrawVisit(d, vbos, tex, Visit(d, rank)).cmds);
  }

  /** Once every root is drawn, unbinding the vertex array completes drawModel. */
  lemma DrawModelClose(d: Document, rank: seq<nat>, vbos: map<int, nat>, tex: nat, vao: nat, s: GlState, g: GlState)
    requires Tree(d, rank)
    requires DrawVisit(d, vbos, tex, PreRoots(d, rank, |Roots(d)|)).ok
    requires g == Emitted(Emitted(s, [BindVertexArray(vao)]), DrawVisit(d, vbos, tex, PreRoots(d, rank, |Roots(d)|)).cmds)
    ensures var r := DrawModelSpec(d, rank, vao, vbos, tex);
            r.ok && Emitted(g, [BindVertexArray(0)]) == Emitted(s, r.cmds)
  {
    var v := DrawVisit(d, vbos, tex, Visit(d, rank)).cmds;
    EmittedTwice(s, [BindVertexArray(vao)], v);
    EmittedTwice(s, [BindVertexArray(vao)] + v, [BindVertexArray(0)]);
  }

  method DrawModel(gl: Gl, vao: nat, vbos: map<int, nat>, d: Document, ghost rank: seq<nat>) returns (ok: bool)
    requires Tree(d, rank)
    modifies gl
    ensures var r := DrawModelSpec(d, rank, vao, vbos, old(gl.texid));
            ok == r.ok && gl.State() == Emitted(old(gl.State()), r.cmds)
  {
    ghost var s := gl.State();
    ghost var tex := s.texid;
    gl.Emit(BindVertexArray(vao));
    ghost var s1 := gl.State();
    var scene := d.scenes[d.defaultScene];
    assert scene.nodes == Roots(d);
    for i := 0 to |scene.nodes|
      invariant gl.State() == Emitted(s1, DrawVisit(d, vbos, tex, PreRoots(d, rank, i)).cmds)
      invariant DrawVisit(d, vbos, tex, PreRoots(d, rank, i)).ok
    {
      ghost var mid := gl.State();
      ok := DrawModelNodes(gl, vbos, d, rank, scene.nodes[i]);
      RootDrawn(d, rank, vbos, i, s1, tex, mid, gl.State());
      if !ok {
        RootFailed(d, rank, vbos, tex, vao, i, s, gl.State());
        return;
      }
    }
    DrawModelClose(d, rank, vbos, tex, vao, s, gl.State());
    gl.Emit(BindVertexArray(0));
    return true;
  }
}
