/** What binding does with buffer names: every name it maps is fresh, names of
    distinct views differ, and a name that a later bindMesh run overwrites is
    neither kept nor deleted by the cleanup. */
module BinderHandles {
  import opened Gltf
  import opened GlTrace
  import opened SceneBinder

  /** Names handed out so far are below `next`; a non-zero name is mapped from
      at most one view. */
  ghost predicate HandlesOk(b: Binding) {
    && b.gl.next > 0
    && (forall k :: k in b.vbos ==> b.vbos[k] < b.gl.next)
    && (forall k1, k2 :: k1 in b.vbos && k2 in b.vbos && k1 != k2 && b.vbos[k1] == b.vbos[k2] ==> b.vbos[k1] == 0)
  }

  /** How the state may move during binding: the trace only grows and gains no
      deletion, keys are kept, and each mapped name is the old one, a 0
      inserted for a new key, or a name handed out in between. */
  ghost predicate Evolves(b: Binding, r: Binding) {
    && b.gl.next <= r.gl.next
    && b.gl.trace <= r.gl.trace
    && (forall h :: DeleteBuffer(h) in r.gl.trace ==> DeleteBuffer(h) in b.gl.trace)
    && b.vbos.Keys <= r.vbos.Keys
    && forall k :: k in r.vbos ==>
         || (k in b.vbos && r.vbos[k] == b.vbos[k])
         || (k !in b.vbos && r.vbos[k] == 0)
         || b.gl.next <= r.vbos[k] < r.gl.next
  }

  /** Every view with a non-zero target is mapped to a name generated after `b`. */
  ghost predicate Overwrites(d: Document, b: Binding, r: Binding) {
    forall i :: i in NonZeroViews(d, |d.bufferViews|) ==>
      && i in r.vbos
      && b.gl.next <= r.vbos[i] < r.gl.next
      && GenBuffer(r.vbos[i]) in r.gl.trace
  }

  /** The upload loop only appends commands, none of them a deletion. */
  lemma {:induction false} UploadViewsTrace(d: Document, k: nat, b: Binding)
    requires k <= |d.bufferViews|
    ensures b.gl.trace <= UploadViews(d, k, b).gl.trace
    ensures forall h :: DeleteBuffer(h) in UploadViews(d, k, b).gl.trace ==> DeleteBuffer(h) in b.gl.trace
  {
    if k > 0 {
      UploadViewsTrace(d, k - 1, b);
    }
  }

  lemma UploadViewsHandles(d: Document, k: nat, b: Binding)
    requires k <= |d.bufferViews|
    ensures Evolves(b, UploadViews(d, k, b))
    ensures HandlesOk(b) ==> HandlesOk(UploadViews(d, k, b))
    ensures forall i :: i in NonZeroViews(d, k) ==> GenBuffer(UploadViews(d, k, b).vbos[i]) in UploadViews(d, k, b).gl.trace
  {
    UploadViewsTrace(d, k, b);
    if HandlesOk(b) {
      UploadViewsInjective(d, k, b);
    }
    UploadViewsGenerates(d, k, b);
  }

  lemma {:induction false} UploadViewsInjective(d: Document, k: nat, b: Binding)
    requires k <= |d.bufferViews| && HandlesOk(b)
    ensures HandlesOk(UploadViews(d, k, b))
  {
    if k > 0 {
      UploadViewsInjective(d, k - 1, b);
      if d.bufferViews[k - 1].target != 0 {
        UploadStepHandles(d, k, b);
      } else {
        assert UploadViews(d, k, b) == UploadViews(d, k - 1, b);
      }
    }
  }

  /** A turn of the upload loop that generates a buffer keeps the handle
      invariant. */
  lemma UploadStepHandles(d: Document, k: nat, b: Binding)
    requires 0 < k <= |d.bufferViews| && d.bufferViews[k - 1].target != 0
    requires HandlesOk(UploadViews(d, k - 1, b))
    ensures HandlesOk(UploadViews(d, k, b))
  {
    var p := UploadViews(d, k - 1, b);
    var view := d.bufferViews[k - 1];
    var h := p.gl.next;
    var r := Binding(p.vbos[k - 1 := h],
                     GlState(h + 1, p.gl.trace + [GenBuffer(h), BufferData(view.target, h, view.byteOffset, view.byteLength)], p.gl.texid));
    assert UploadViews(d, k, b) == r;
    FreshNameKeepsHandles(p, k - 1, r);
  }

  /** Mapping one key to the next fresh name keeps the handle invariant. */
  lemma FreshNameKeepsHandles(p: Binding, key: int, r: Binding)
    requires HandlesOk(p)
    requires r.vbos == p.vbos[key := p.gl.next] && r.gl.next == p.gl.next + 1
    ensures HandlesOk(r)
  {
    var h, m := p.gl.next, r.vbos;
    forall k1, k2 | k1 in m && k2 in m && k1 != k2 && m[k1] == m[k2] ensures m[k1] == 0 {
      if k1 != key && k2 != key {
        assert m[k1] == p.vbos[k1] && m[k2] == p.vbos[k2];
      }
    }
  }

  lemma {:induction false} UploadViewsGenerates(d: Document, k: nat, b: Binding)
    requires k <= |d.bufferViews|
    ensures forall i :: i in NonZeroViews(d, k) ==> GenBuffer(UploadViews(d, k, b).vbos[i]) in UploadViews(d, k, b).gl.trace
  {
    if k > 0 {
      UploadViewsGenerates(d, k - 1, b);
      var p := UploadViews(d, k - 1, b);
      var r := UploadViews(d, k, b);
      if d.bufferViews[k - 1].target != 0 {
        var h := p.gl.next;
        assert GenBuffer(h) in r.gl.trace;
        forall i | i in NonZeroViews(d, k) ensures GenBuffer(r.vbos[i]) in r.gl.trace {
          if i != k - 1 {
            assert i in NonZeroViews(d, k - 1);
            PrefixMember(p.gl.trace, r.gl.trace, GenBuffer(p.vbos[i]));
          }
        }
      } else {
        assert NonZeroViews(d, k) == NonZeroViews(d, k - 1);
      }
    }
  }

  lemma {:induction false} BindAttribsHandles(d: Document, p: Primitive, j: nat, b: Binding)
    requires PrimitiveOk(d, p) && j <= |p.attributes|
    ensures Evolves(b, BindAttribs(d, p, j, b))
    ensures HandlesOk(b) ==> HandlesOk(BindAttribs(d, p, j, b))
  {
    if j > 0 {
      BindAttribsHandles(d, p, j - 1, b);
      var q := BindAttribs(d, p, j - 1, b);
      var r := BindAttribs(d, p, j, b);
      var a := p.attributes[j - 1];
      assert r.gl.trace == q.gl.trace + r.gl.trace[|q.gl.trace|..];
      assert forall c :: c in r.gl.trace[|q.gl.trace|..] ==> !c.DeleteBuffer?;
    }
  }

  lemma TextureStepHandles(d: Document, b: Binding)
    requires TextureOk(d)
    ensures Evolves(b, TextureStep(d, b))
    ensures HandlesOk(b) ==> HandlesOk(TextureStep(d, b))
  {
  }

  lemma {:induction false} BindPrimsHandles(d: Document, mesh: Mesh, j: nat, b: Binding)
    requires MeshOk(d, mesh) && TextureOk(d) && j <= |mesh.primitives|
    ensures Evolves(b, BindPrims(d, mesh, j, b))
    ensures HandlesOk(b) ==> HandlesOk(BindPrims(d, mesh, j, b))
  {
    if j > 0 {
      BindPrimsHandles(d, mesh, j - 1, b);
      var q := BindPrims(d, mesh, j - 1, b);
      var p := mesh.primitives[j - 1];
      assert p in mesh.primitives;
      BindAttribsHandles(d, p, |p.attributes|, q);
      var q' := BindAttribs(d, p, |p.attributes|, q);
      TextureStepHandles(d, q');
      EvolvesTrans(b, q, q');
      EvolvesTrans(b, q', TextureStep(d, q'));
    }
  }

  lemma EvolvesTrans(a: Binding, b: Binding, c: Binding)
    requires Evolves(a, b) && Evolves(b, c)
    ensures Evolves(a, c)
  {
    forall k | k in c.vbos
      ensures || (k in a.vbos && c.vbos[k] == a.vbos[k])
              || (k !in a.vbos && c.vbos[k] == 0)
              || a.gl.next <= c.vbos[k] < c.gl.next
    {
      if k in b.vbos && c.vbos[k] == b.vbos[k] {
        assert k in b.vbos;
      }
    }
  }

  /** One bindMesh run overwrites every non-zero view with a fresh name. */
  lemma BindMeshHandles(d: Document, mesh: Mesh, b: Binding)
    requires MeshOk(d, mesh) && TextureOk(d)
    ensures Evolves(b, BindMeshSpec(d, mesh, b))
    ensures HandlesOk(b) ==> HandlesOk(BindMeshSpec(d, mesh, b))
    ensures Overwrites(d, b, BindMeshSpec(d, mesh, b))
  {
    var u := UploadViews(d, |d.bufferViews|, b);
    UploadViewsHandles(d, |d.bufferViews|, b);
    BindPrimsHandles(d, mesh, |mesh.primitives|, u);
    var r := BindPrims(d, mesh, |mesh.primitives|, u);
    EvolvesTrans(b, u, r);
    forall i | i in NonZeroViews(d, |d.bufferViews|)
      ensures i in r.vbos && b.gl.next <= r.vbos[i] < r.gl.next && GenBuffer(r.vbos[i]) in r.gl.trace
    {
      assert GenBuffer(u.vbos[i]) in u.gl.trace;
      PrefixMember(u.gl.trace, r.gl.trace, GenBuffer(u.vbos[i]));
    }
  }

  lemma PrefixMember(s: seq<Cmd>, t: seq<Cmd>, c: Cmd)
    requires s <= t && c in s
    ensures c in t
  {
    var k :| 0 <= k < |s| && s[k] == c;
    assert t[k] == c;
  }

  /** Walking `vis` only evolves the state, keeps the handle invariant, and
      overwrites every non-zero view once a meshed node is met. */
  lemma {:induction false} BindVisitHandles(d: Document, vis: seq<int>, b: Binding)
    requires WellFormed(d) && forall x :: x in vis ==> 0 <= x < |d.nodes|
    ensures Evolves(b, BindVisit(d, vis, b))
    ensures HandlesOk(b) ==> HandlesOk(BindVisit(d, vis, b))
    ensures AnyMeshed(d, vis) ==> Overwrites(d, b, BindVisit(d, vis, b))
    decreases |vis|
  {
    if vis != [] {
      var init, x := vis[..|vis| - 1], vis[|vis| - 1];
      assert x in vis;
      assert forall y :: y in init ==> y in vis;
      assert vis == init + [x];
      BindVisitHandles(d, init, b);
      AnyMeshedSnoc(d, init, x);
      var p := BindVisit(d, init, b);
      if HasMesh(d, x) {
        assert MeshOf(d, x) in d.meshes;
        BindMeshHandles(d, MeshOf(d, x), p);
        EvolvesTrans(b, p, BindVisit(d, vis, b));
      }
    }
  }

  /** A name mapped to a non-zero view after walking `a` is, after walking
      `c` as well, the name of no view and still not deleted, provided both
      walks meet a meshed node. */
  lemma OverwrittenNameDropped(d: Document, a: seq<int>, c: seq<int>, b0: Binding, i: int)
    requires WellFormed(d)
    requires forall x :: x in a ==> 0 <= x < |d.nodes|
    requires forall x :: x in c ==> 0 <= x < |d.nodes|
    requires AnyMeshed(d, a) && AnyMeshed(d, c) && HandlesOk(b0)
    requires i in NonZeroViews(d, |d.bufferViews|)
    ensures var b1 := BindVisit(d, a, b0);
            var b2 := BindVisit(d, a + c, b0);
            && i in b1.vbos && b1.vbos[i] != 0
            && GenBuffer(b1.vbos[i]) in b2.gl.trace
            && (forall k :: k in b2.vbos ==> b2.vbos[k] != b1.vbos[i])
            && (DeleteBuffer(b1.vbos[i]) in b2.gl.trace ==> DeleteBuffer(b1.vbos[i]) in b0.gl.trace)
  {
    var b1 := BindVisit(d, a, b0);
    BindVisitHandles(d, a, b0);
    var b2 := BindVisit(d, c, b1);
    BindVisitHandles(d, c, b1);
    BindVisitAppend(d, a, c, b0);
    assert b2 == BindVisit(d, a + c, b0);
    var h := b1.vbos[i];
    forall k | k in b2.vbos ensures b2.vbos[k] != h {
      if k in b1.vbos && b2.vbos[k] == b1.vbos[k] && k != i {
        assert b1.vbos[k] != h;
      }
    }
    PrefixMember(b1.gl.trace, b2.gl.trace, GenBuffer(h));
  }

  /** The cleanup deletes only names it finds in the map. */
  lemma {:induction false} CleanupDeletesMapped(d: Document, k: nat, m: map<int, nat>, h: nat)
    requires k <= |d.bufferViews|
    requires DeleteBuffer(h) in Deleted(d, k, m)
    ensures exists j :: j in m && m[j] == h
  {
    if k > 0 {
      if DeleteBuffer(h) in Deleted(d, k - 1, m) {
        CleanupDeletesMapped(d, k - 1, m, h);
      } else {
        assert m[k - 1] == h;
      }
    }
  }

  /** When the walk meets a meshed node, then later another one, the buffers
      that the earlier bindMesh runs created for the non-zero views are
      neither returned in the map nor deleted: only names that the cleanup
      finds in the map are deleted, and those were overwritten. */
  lemma BindModelLeaksOverwritten(d: Document, rank: seq<nat>, s: GlState, a: seq<int>, c: seq<int>, i: int)
    requires Tree(d, rank) && Visit(d, rank) == a + c
    requires forall x :: x in a ==> 0 <= x < |d.nodes|
    requires forall x :: x in c ==> 0 <= x < |d.nodes|
    requires AnyMeshed(d, a) && AnyMeshed(d, c)
    requires i in NonZeroViews(d, |d.bufferViews|)
    ensures var s1 := GlState(s.next + 1, s.trace + [GenVertexArray(s.next), BindVertexArray(s.next)], s.texid);
            var b1 := BindVisit(d, a, Binding(map[], s1));
            var r := BindModelSpec(d, rank, s);
            && i in b1.vbos
            && var h := b1.vbos[i];
            && GenBuffer(h) in r.gl.trace
            && (forall k :: k in r.vbos ==> r.vbos[k] != h)
            && (DeleteBuffer(h) in r.gl.trace ==> DeleteBuffer(h) in s.trace)
  {
    var s1 := GlState(s.next + 1, s.trace + [GenVertexArray(s.next), BindVertexArray(s.next)], s.texid);
    var b0 := Binding(map[], s1);
    OverwrittenNameDropped(d, a, c, b0, i);
    var h := BindVisit(d, a, b0).vbos[i];
    var b2 := BindVisit(d, a + c, b0);
    var e := Binding(b2.vbos, Emitted(b2.gl, [BindVertexArray(0)]));
    assert BindModelSpec(d, rank, s) == Cleanup(d, e);
    CleanupSparesUnmapped(d, e, h);
    PrefixMember(b2.gl.trace, e.gl.trace, GenBuffer(h));
    PrefixMember(e.gl.trace, Cleanup(d, e).gl.trace, GenBuffer(h));
    if DeleteBuffer(h) in e.gl.trace {
      assert DeleteBuffer(h) in b2.gl.trace;
      assert DeleteBuffer(h) in s1.trace;
    }
  }

  /** The cleanup appends to the trace, and it neither keeps nor deletes a
      name that the map does not hold. */
  lemma CleanupSparesUnmapped(d: Document, e: Binding, h: nat)
    requires forall k :: k in e.vbos ==> e.vbos[k] != h
    ensures e.gl.trace <= Cleanup(d, e).gl.trace
    ensures forall k :: k in Cleanup(d, e).vbos ==> Cleanup(d, e).vbos[k] != h
    ensures DeleteBuffer(h) in Cleanup(d, e).gl.trace ==> DeleteBuffer(h) in e.gl.trace
  {
    var r := Cleanup(d, e);
    var del := Deleted(d, |d.bufferViews|, e.vbos);
    assert r.gl.trace == e.gl.trace + del;
    if DeleteBuffer(h) in del {
      CleanupDeletesMapped(d, |d.bufferViews|, e.vbos, h);
    }
  }

  /** What bindModel returns maps no two views to the same non-zero name, and
      every name it maps was handed out before the final counter. */
  lemma BindModelHandlesOk(d: Document, rank: seq<nat>, s: GlState)
    requires Tree(d, rank)
    ensures HandlesOk(BindModelSpec(d, rank, s))
  {
    var s1 := GlState(s.next + 1, s.trace + [GenVertexArray(s.next), BindVertexArray(s.next)], s.texid);
    var b0 := Binding(map[], s1);
    BindVisitHandles(d, Visit(d, rank), b0);
    var b := BindVisit(d, Visit(d, rank), b0);
    var e := Binding(b.vbos, Emitted(b.gl, [BindVertexArray(0)]));
    assert HandlesOk(e);
    var r := Cleanup(d, e);
    assert r == BindModelSpec(d, rank, s);
    assert r.gl.next == e.gl.next;
  }
}
