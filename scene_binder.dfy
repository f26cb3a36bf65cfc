/** Scene binding: uploading buffer views, configuring vertex attributes and
    the single global texture while walking the node tree, then releasing
    every buffer that is not an index (element) buffer. */
module SceneBinder {
  import opened Gltf
  import opened GlTrace

  // Pixel formats and types chosen for the texture upload.
  const RED: int := 0x1903
  const RG: int := 0x8227
  const RGB: int := 0x1907
  const UNSIGNED_BYTE: int := 0x1401
  const UNSIGNED_SHORT: int := 0x1403

  // ---------------------------------------------------------------------------
  // Decision tables

  /** Vertex-attribute slot of a semantic; -1 means "unsupported, only logged". */
  function AttribSlot(semantic: string): (slot: int)
    ensures -1 <= slot <= 2
    ensures slot == 0 <==> semantic == "POSITION"
    ensures slot == 1 <==> semantic == "NORMAL"
    ensures slot == 2 <==> semantic == "TEXCOORD_0"
  {
    // later tests win, as in the source's sequence of ifs
    if semantic == "TEXCOORD_0" then 2
    else if semantic == "NORMAL" then 1
    else if semantic == "POSITION" then 0
    else -1
  }

  /** The semantic bound to each supported slot. */
  function SlotSemantic(slot: nat): string
    requires slot <= 2
  {
    if slot == 0 then "POSITION" else if slot == 1 then "NORMAL" else "TEXCOORD_0"
  }

  /** Slots and the semantics they serve are inverse to each other. */
  lemma SlotRoundTrip(slot: nat, semantic: string)
    requires slot <= 2
    ensures AttribSlot(SlotSemantic(slot)) == slot
    ensures AttribSlot(semantic) >= 0 ==> SlotSemantic(AttribSlot(semantic)) == semantic
  {
  }

  /** Component count passed to glVertexAttribPointer. */
  function ComponentSize(accessorType: int): (size: int)
    ensures accessorType == TYPE_SCALAR ==> size == 1
    ensures accessorType != TYPE_SCALAR ==> size == accessorType
  {
    if accessorType != TYPE_SCALAR then accessorType else 1
  }

  /** glTF's component count of each vector accessor type. */
  function VectorComponents(accessorType: int): int {
    if accessorType == TYPE_SCALAR then 1
    else if 2 <= accessorType <= 4 then accessorType
    else 0
  }

  /** For scalar and vector accessors the size is the number of components. */
  lemma ComponentSizeOfVectors(accessorType: int)
    requires VectorComponents(accessorType) > 0
    ensures ComponentSize(accessorType) == VectorComponents(accessorType)
  {
  }

  /** Upload format chosen from an image's channel count. */
  function TextureFormat(component: int): (format: int)
    ensures component == 1 ==> format == RED
    ensures component == 2 ==> format == RG
    ensures component == 3 ==> format == RGB
    ensures component !in {1, 2, 3} ==> format == RGBA
  {
    if component == 1 then RED
    else if component == 2 then RG
    else if component == 3 then RGB
    else RGBA
  }

  /** Channels the GL reads per pixel for each upload format. */
  function Channels(format: int): nat {
    if format == RED then 1
    else if format == RG then 2
    else if format == RGB then 3
    else 4
  }

  /** The chosen format reads as many channels as the image has, except that
      every other channel count is read as four. */
  lemma FormatMatchesChannels(component: int)
    ensures Channels(TextureFormat(component)) == if 1 <= component <= 3 then component else 4
  {
  }

  /** Upload pixel type chosen from an image's bit depth. */
  function TextureType(bits: int): (pixelType: int)
    ensures pixelType == UNSIGNED_SHORT <==> bits == 16
    ensures pixelType == UNSIGNED_BYTE <==> bits != 16
  {
    if bits == 8 then UNSIGNED_BYTE
    else if bits == 16 then UNSIGNED_SHORT
    else UNSIGNED_BYTE  // logged as an unexpected depth
  }

  /** Bytes per channel that the GL reads for each pixel type. */
  function ChannelBytes(pixelType: int): nat {
    if pixelType == UNSIGNED_SHORT then 2 else 1
  }

  /** For 8- and 16-bit images the pixel type reads exactly one channel's bits. */
  lemma TypeMatchesDepth(bits: int)
    requires bits == 8 || bits == 16
    ensures 8 * ChannelBytes(TextureType(bits)) == bits
  {
  }

  // ---------------------------------------------------------------------------
  // Specification of binding

  /** The buffer-view map together with the GPU state. */
  datatype Binding = Binding(vbos: map<int, nat>, gl: GlState)

  /** Every key of `m` is the index of a buffer view. */
  predicate KeysAreViews(d: Document, m: map<int, nat>) {
    forall i :: i in m ==> 0 <= i < |d.bufferViews|
  }

  /** Views among the first `k` whose target is not zero. */
  function NonZeroViews(d: Document, k: nat): set<int> {
    set i | 0 <= i < k && i < |d.bufferViews| && d.bufferViews[i].target != 0
  }

  /** Views that hold indices. */
  function ElementViews(d: Document): set<int> {
    set i | 0 <= i < |d.bufferViews| && d.bufferViews[i].target == ELEMENT_ARRAY_BUFFER
  }

  /** The first loop of bindMesh, over the first `k` views: each view with a
      non-zero target gets a fresh buffer holding its byte range. */
  function UploadViews(d: Document, k: nat, b: Binding): (r: Binding)
    requires k <= |d.bufferViews|
    ensures r.vbos.Keys == b.vbos.Keys + NonZeroViews(d, k)
    ensures forall i :: i in NonZeroViews(d, k) ==> b.gl.next <= r.vbos[i] < r.gl.next
    ensures forall i :: i in b.vbos && i !in NonZeroViews(d, k) ==> r.vbos[i] == b.vbos[i]
    ensures b.gl.next <= r.gl.next && r.gl.texid == b.gl.texid
  {
    if k == 0 then b
    else
      var p := UploadViews(d, k - 1, b);
      var view := d.bufferViews[k - 1];
      if view.target == 0 then p
      else
        var h := p.gl.next;
        Binding(p.vbos[k - 1 := h],
                GlState(h + 1, p.gl.trace + [GenBuffer(h), BufferData(view.target, h, view.byteOffset, view.byteLength)], p.gl.texid))
  }

  /** The attribute loop over the first `j` attributes of `p`. Looking a view up
      with `operator[]` inserts the name 0 when the view has no buffer. */
  function BindAttribs(d: Document, p: Primitive, j: nat, b: Binding): (r: Binding)
    requires PrimitiveOk(d, p) && j <= |p.attributes|
    ensures b.vbos.Keys <= r.vbos.Keys
    ensures forall i :: i in b.vbos ==> r.vbos[i] == b.vbos[i]
    ensures forall i :: i in r.vbos && i !in b.vbos ==> 0 <= i < |d.bufferViews| && r.vbos[i] == 0
    ensures r.gl.next == b.gl.next && r.gl.texid == b.gl.texid
  {
    if j == 0 then b
    else
      var q := BindAttribs(d, p, j - 1, b);
      var a := p.attributes[j - 1];
      var acc := d.accessors[a.accessor];
      var h := if acc.bufferView in q.vbos then q.vbos[acc.bufferView] else 0;
      var slot := AttribSlot(a.semantic);
      var enable := if slot >= 0
        then [EnableAttrib(slot, ComponentSize(acc.accessorType), acc.componentType, acc.normalized, acc.byteOffset)]
        else [];
      Binding(q.vbos[acc.bufferView := h], Emitted(q.gl, [BindArrayBuffer(h)] + enable))
  }

  /** The texture block, run once per primitive: when the first texture names an
      image, a fresh texture name replaces the global one and the image is
      uploaded with internal format RGBA. */
  function TextureStep(d: Document, b: Binding): (r: Binding)
    requires TextureOk(d)
    ensures r.vbos == b.vbos
    ensures (|d.textures| > 0 && d.textures[0].source > -1) <==> r.gl.next == b.gl.next + 1
    ensures r.gl.next != b.gl.next ==> r.gl.texid == b.gl.next
    ensures !(|d.textures| > 0 && d.textures[0].source > -1) ==> r == b
    ensures |d.textures| > 0 && d.textures[0].source > -1 ==>
              var image := d.images[d.textures[0].source];
              && b.gl.trace <= r.gl.trace && |r.gl.trace| == |b.gl.trace| + 2
              && r.gl.trace[|b.gl.trace|] == GenTexture(r.gl.texid)
              && r.gl.trace[|b.gl.trace| + 1] == TexImage(RGBA, image.width, image.height, TextureFormat(image.component), TextureType(image.bits))
  {
    if |d.textures| > 0 && d.textures[0].source > -1 then
      var image := d.images[d.textures[0].source];
      var h := b.gl.next;
      Binding(b.vbos, GlState(h + 1, b.gl.trace + [GenTexture(h),
        TexImage(RGBA, image.width, image.height, TextureFormat(image.component), TextureType(image.bits))], h))
    else b
  }

  /** The primitive loop of bindMesh over the first `j` primitives. */
  function BindPrims(d: Document, mesh: Mesh, j: nat, b: Binding): (r: Binding)
    requires MeshOk(d, mesh) && TextureOk(d) && j <= |mesh.primitives|
    ensures b.vbos.Keys <= r.vbos.Keys
    ensures forall i :: i in b.vbos ==> r.vbos[i] == b.vbos[i]
    ensures forall i :: i in r.vbos && i !in b.vbos ==> 0 <= i < |d.bufferViews| && r.vbos[i] == 0
    ensures b.gl.next <= r.gl.next
  {
    if j == 0 then b
    else
      var q := BindPrims(d, mesh, j - 1, b);
      TextureStep(d, BindAttribs(d, mesh.primitives[j - 1], |mesh.primitives[j - 1].attributes|, q))
  }

  /** bindMesh: upload every view with a non-zero target, then configure the
      mesh's primitives. */
  function BindMeshSpec(d: Document, mesh: Mesh, b: Binding): (r: Binding)
    requires MeshOk(d, mesh) && TextureOk(d)
  {
    BindPrims(d, mesh, |mesh.primitives|, UploadViews(d, |d.bufferViews|, b))
  }

  /** One node of the walk: its mesh is bound only when its index is in range. */
  function BindStep(d: Document, n: int, b: Binding): Binding
    requires WellFormed(d) && 0 <= n < |d.nodes|
  {
    if HasMesh(d, n) then BindMeshSpec(d, MeshOf(d, n), b) else b
  }

  /** Binding the nodes of `vis` in order. */
  function BindVisit(d: Document, vis: seq<int>, b: Binding): Binding
    requires WellFormed(d) && forall x :: x in vis ==> 0 <= x < |d.nodes|
  {
    if vis == [] then b
    else
      var init := vis[..|vis| - 1];
      assert vis[|vis| - 1] in vis && forall x :: x in init ==> x in vis;
      BindStep(d, vis[|vis| - 1], BindVisit(d, init, b))
  }

  /** The cleanup loop over keys below `k`, in ascending order: a key whose view
      is not an element buffer has its buffer deleted and is erased. */
  function CleanupFrom(d: Document, k: nat, b: Binding): (r: Binding)
    requires k <= |d.bufferViews|
    ensures forall i :: i in r.vbos <==> i in b.vbos && !(0 <= i < k && d.bufferViews[i].target != ELEMENT_ARRAY_BUFFER)
    ensures forall i :: i in r.vbos ==> r.vbos[i] == b.vbos[i]
    ensures r.gl == Emitted(b.gl, Deleted(d, k, b.vbos))
  {
    if k == 0 then b
    else
      var p := CleanupFrom(d, k - 1, b);
      if k - 1 in p.vbos && d.bufferViews[k - 1].target != ELEMENT_ARRAY_BUFFER then
        Binding(p.vbos - {k - 1}, Emitted(p.gl, [DeleteBuffer(p.vbos[k - 1])]))
      else p
  }

  /** The deletions the cleanup issues for map `m` over keys below `k`: the
      handle of every non-element entry, in ascending key order. */
  function Deleted(d: Document, k: nat, m: map<int, nat>): seq<Cmd>
    requires k <= |d.bufferViews|
  {
    if k == 0 then []
    else Deleted(d, k - 1, m)
         + if k - 1 in m && d.bufferViews[k - 1].target != ELEMENT_ARRAY_BUFFER then [DeleteBuffer(m[k - 1])] else []
  }

  function Cleanup(d: Document, b: Binding): Binding {
    CleanupFrom(d, |d.bufferViews|, b)
  }

  /** bindModel from GPU state `s`: a fresh vertex array is bound, the default
      scene is walked, the vertex array is unbound and the map is cleaned up. */
  function BindModelSpec(d: Document, rank: seq<nat>, s: GlState): Binding
    requires Tree(d, rank)
  {
    var s1 := GlState(s.next + 1, s.trace + [GenVertexArray(s.next), BindVertexArray(s.next)], s.texid);
    var b := BindVisit(d, Visit(d, rank), Binding(map[], s1));
    Cleanup(d, Binding(b.vbos, Emitted(b.gl, [BindVertexArray(0)])))
  }

  /** Some node of `vis` has a mesh in range. */
  predicate AnyMeshed(d: Document, vis: seq<int>) {
    exists j :: 0 <= j < |vis| && 0 <= vis[j] < |d.nodes| && HasMesh(d, vis[j])
  }

  // ---------------------------------------------------------------------------
  // Which views end up in the map

  /** One bindMesh run gives every view with a non-zero target a buffer and adds
      no key outside the views. */
  lemma BindMeshKeys(d: Document, mesh: Mesh, b: Binding)
    requires MeshOk(d, mesh) && TextureOk(d)
    ensures b.vbos.Keys + NonZeroViews(d, |d.bufferViews|) <= BindMeshSpec(d, mesh, b).vbos.Keys
    ensures forall i :: i in BindMeshSpec(d, mesh, b).vbos && i !in b.vbos ==> 0 <= i < |d.bufferViews|
  {
  }

  /** Walking `vis` keeps the keys it started with, adds none outside the
      views, adds every non-zero view once a meshed node is met, and changes
      nothing when no node has a mesh. */
  lemma {:induction false} BindVisitKeys(d: Document, vis: seq<int>, b: Binding)
    requires WellFormed(d) && forall x :: x in vis ==> 0 <= x < |d.nodes|
    ensures b.vbos.Keys <= BindVisit(d, vis, b).vbos.Keys
    ensures forall i :: i in BindVisit(d, vis, b).vbos && i !in b.vbos ==> 0 <= i < |d.bufferViews|
    ensures AnyMeshed(d, vis) ==> NonZeroViews(d, |d.bufferViews|) <= BindVisit(d, vis, b).vbos.Keys
    ensures !AnyMeshed(d, vis) ==> BindVisit(d, vis, b).vbos == b.vbos
    decreases |vis|
  {
    if vis != [] {
      var init, x := vis[..|vis| - 1], vis[|vis| - 1];
      assert x in vis;
      assert forall y :: y in init ==> y in vis;
      BindVisitKeys(d, init, b);
      var p := BindVisit(d, init, b);
      assert vis == init + [x];
      AnyMeshedSnoc(d, init, x);
      if HasMesh(d, x) {
        assert MeshOf(d, x) in d.meshes;
        BindMeshKeys(d, MeshOf(d, x), p);
      }
    }
  }

  lemma AnyMeshedSnoc(d: Document, init: seq<int>, x: int)
    requires 0 <= x < |d.nodes|
    ensures AnyMeshed(d, init + [x]) <==> AnyMeshed(d, init) || HasMesh(d, x)
  {
    var vis := init + [x];
    if HasMesh(d, x) {
      assert vis[|init|] == x;
    }
    if AnyMeshed(d, init) {
      var j :| 0 <= j < |init| && 0 <= init[j] < |d.nodes| && HasMesh(d, init[j]);
      assert vis[j] == init[j];
    }
    if AnyMeshed(d, vis) && !HasMesh(d, x) {
      var j :| 0 <= j < |vis| && 0 <= vis[j] < |d.nodes| && HasMesh(d, vis[j]);
      assert j < |init| && init[j] == vis[j];
    }
  }

  /** The map bindModel returns holds exactly the element views when some
      visited node has a mesh in range, and nothing otherwise. */
  lemma BindModelKeys(d: Document, rank: seq<nat>, s: GlState)
    requires Tree(d, rank)
    ensures BindModelSpec(d, rank, s).vbos.Keys == if AnyMeshed(d, Visit(d, rank)) then ElementViews(d) else {}
  {
    var s1 := GlState(s.next + 1, s.trace + [GenVertexArray(s.next), BindVertexArray(s.next)], s.texid);
    BindVisitKeys(d, Visit(d, rank), Binding(map[], s1));
    var b := BindVisit(d, Visit(d, rank), Binding(map[], s1));
    var r := BindModelSpec(d, rank, s);
    forall i ensures i in r.vbos <==> i in (if AnyMeshed(d, Visit(d, rank)) then ElementViews(d) else {}) {
      if AnyMeshed(d, Visit(d, rank)) && 0 <= i < |d.bufferViews| && d.bufferViews[i].target == ELEMENT_ARRAY_BUFFER {
        assert i in NonZeroViews(d, |d.bufferViews|);
      }
    }
  }

  /** A view with target 0 never keeps an entry. */
  lemma ZeroTargetNeverMapped(d: Document, rank: seq<nat>, s: GlState, i: int)
    requires Tree(d, rank) && 0 <= i < |d.bufferViews| && d.bufferViews[i].target == 0
    ensures i !in BindModelSpec(d, rank, s).vbos
  {
    BindModelKeys(d, rank, s);
  }

  // ---------------------------------------------------------------------------
  // The binder

  /** The first loop of bindMesh. */
  method UploadBufferViews(gl: Gl, vbos0: map<int, nat>, d: Document) returns (vbos: map<int, nat>)
    modifies gl
    ensures Binding(vbos, gl.State()) == UploadViews(d, |d.bufferViews|, Binding(vbos0, old(gl.State())))
  {
    vbos := vbos0;
    ghost var b0 := Binding(vbos0, gl.State());
    for i := 0 to |d.bufferViews|
      invariant Binding(vbos, gl.State()) == UploadViews(d, i, b0)
    {
      var bufferView := d.bufferViews[i];
      if bufferView.target == 0 {
        continue;  // unsupported view: logged and skipped
      }
      var vbo := gl.GenBuffer();
      vbos := vbos[i := vbo];
      gl.Emit(BufferData(bufferView.target, vbo, bufferView.byteOffset, bufferView.byteLength));
    }
  }

  /** The attribute loop of one primitive. */
  method BindAttributes(gl: Gl, vbos0: map<int, nat>, d: Document, primitive: Primitive) returns (vbos: map<int, nat>)
    requires PrimitiveOk(d, primitive)
    modifies gl
    ensures Binding(vbos, gl.State()) == BindAttribs(d, primitive, |primitive.attributes|, Binding(vbos0, old(gl.State())))
  {
    vbos := vbos0;
    ghost var b0 := Binding(vbos0, gl.State());
    for j := 0 to |primitive.attributes|
      invariant Binding(vbos, gl.State()) == BindAttribs(d, primitive, j, b0)
    {
      var attrib := primitive.attributes[j];
      assert attrib in primitive.attributes;
      ghost var q := gl.State();
      var accessor := d.accessors[attrib.accessor];
      if accessor.bufferView !in vbos {
        vbos := vbos[accessor.bufferView := 0];  // std::map::operator[] inserts a value-initialised name
      }
      var h := vbos[accessor.bufferView];
      gl.Emit(BindArrayBuffer(h));
      var size := ComponentSize(accessor.accessorType);
      var vaa := AttribSlot(attrib.semantic);
      if vaa > -1 {
        var enable := EnableAttrib(vaa, size, accessor.componentType, accessor.normalized, accessor.byteOffset);
        gl.Emit(enable);
        EmittedTwice(q, [BindArrayBuffer(h)], [enable]);
      } else {
        // only logged
        assert [BindArrayBuffer(h)] + [] == [BindArrayBuffer(h)];
      }
    }
  }

  /** The texture block inside the primitive loop. */
  method BindTexture(gl: Gl, d: Document, ghost vbos: map<int, nat>)
    requires TextureOk(d)
    modifies gl
    ensures Binding(vbos, gl.State()) == TextureStep(d, Binding(vbos, old(gl.State())))
  {
    if |d.textures| > 0 {
      var tex := d.textures[0];
      if tex.source > -1 {
        gl.GenTexture();
        var image := d.images[tex.source];
        gl.Emit(TexImage(RGBA, image.width, image.height, TextureFormat(image.component), TextureType(image.bits)));
      }
    }
  }

  method BindMesh(gl: Gl, vbos0: map<int, nat>, d: Document, mesh: Mesh) returns (vbos: map<int, nat>)
    requires MeshOk(d, mesh) && TextureOk(d)
    modifies gl
    ensures Binding(vbos, gl.State()) == BindMeshSpec(d, mesh, Binding(vbos0, old(gl.State())))
  {
    vbos := UploadBufferViews(gl, vbos0, d);
    ghost var b1 := Binding(vbos, gl.State());
    for i := 0 to |mesh.primitives|
      invariant Binding(vbos, gl.State()) == BindPrims(d, mesh, i, b1)
    {
      var primitive := mesh.primitives[i];
      assert primitive in mesh.primitives;
      vbos := BindAttributes(gl, vbos, d, primitive);
      BindTexture(gl, d, vbos);
    }
  }

  /** Concatenated walks bind like the second walk after the first. */
  lemma {:induction false} BindVisitAppend(d: Document, a: seq<int>, c: seq<int>, b: Binding)
    requires WellFormed(d)
    requires forall x :: x in a ==> 0 <= x < |d.nodes|
    requires forall x :: x in c ==> 0 <= x < |d.nodes|
    ensures BindVisit(d, a + c, b) == BindVisit(d, c, BindVisit(d, a, b))
    decreases |c|
  {
    if c == [] {
      assert a + c == a;
    } else {
      var c' := c[..|c| - 1];
      assert (a + c)[..|a + c| - 1] == a + c';
      assert forall x :: x in c' ==> x in c;
      BindVisitAppend(d, a, c', b);
    }
  }

  method BindModelNodes(gl: Gl, vbos0: map<int, nat>, d: Document, ghost rank: seq<nat>, n: int)
    returns (vbos: map<int, nat>)
    requires Tree(d, rank) && 0 <= n < |d.nodes|
    modifies gl
    ensures Binding(vbos, gl.State()) == BindVisit(d, Pre(d, rank, n), Binding(vbos0, old(gl.State())))
    decreases rank[n]
  {
    ghost var b0 := Binding(vbos0, gl.State());
    vbos := vbos0;
    NodeBoundFirst(d, rank, n, b0);
    if (d.nodes[n].mesh >= 0) && (d.nodes[n].mesh < |d.meshes|) {
      vbos := BindMesh(gl, vbos, d, d.meshes[d.nodes[n].mesh]);
    }
    var children := d.nodes[n].children;
    for i := 0 to |children|
      invariant Binding(vbos, gl.State()) == BindVisit(d, [n] + PreChildren(d, rank, n, i), b0)
    {
      // the source asserts that the child index is in range
      ghost var mid := Binding(vbos, gl.State());
      vbos := BindModelNodes(gl, vbos, d, rank, children[i]);
      ChildBound(d, rank, n, i, b0, mid, Binding(vbos, gl.State()));
    }
  }

  /** bindModelNodes binds the node's own mesh before its children. */
  lemma NodeBoundFirst(d: Document, rank: seq<nat>, n: int, b: Binding)
    requires Tree(d, rank) && 0 <= n < |d.nodes|
    ensures Pre(d, rank, n) == [n] + PreChildren(d, rank, n, |d.nodes[n].children|)
    ensures HasMesh(d, n) ==> MeshOf(d, n) in d.meshes
    ensures BindVisit(d, [n] + PreChildren(d, rank, n, 0), b) == if HasMesh(d, n) then BindMeshSpec(d, MeshOf(d, n), b) else b
  {
    assert [n] + PreChildren(d, rank, n, 0) == [n];
    assert [n][..0] == [];
    if HasMesh(d, n) {
      assert MeshOf(d, n) in d.meshes;
    }
  }

  /** One turn of bindModelNodes' child loop, in terms of the walk. */
  lemma ChildBound(d: Document, rank: seq<nat>, n: int, i: nat, b: Binding, mid: Binding, after: Binding)
    requires Tree(d, rank) && 0 <= n < |d.nodes| && i < |d.nodes[n].children|
    requires mid == BindVisit(d, [n] + PreChildren(d, rank, n, i), b)
    requires after == BindVisit(d, Pre(d, rank, d.nodes[n].children[i]), mid)
    ensures after == BindVisit(d, [n] + PreChildren(d, rank, n, i + 1), b)
  {
    var before := [n] + PreChildren(d, rank, n, i);
    var sub := Pre(d, rank, d.nodes[n].children[i]);
    BindVisitAppend(d, before, sub, b);
    NodeStep(d, rank, n, i);
  }

  /** One turn of bindModel's root loop, in terms of the walk. */
  lemma RootBound(d: Document, rank: seq<nat>, i: nat, b: Binding, mid: Binding, after: Binding)
    requires Tree(d, rank) && i < |Roots(d)|
    requires mid == BindVisit(d, PreRoots(d, rank, i), b)
    requires after == BindVisit(d, Pre(d, rank, Roots(d)[i]), mid)
    ensures after == BindVisit(d, PreRoots(d, rank, i + 1), b)
  {
    BindVisitAppend(d, PreRoots(d, rank, i), Pre(d, rank, Roots(d)[i]), b);
  }

  /** The iterator loop that erases every non-element entry, in ascending key order. */
  method CleanupVbos(gl: Gl, vbos0: map<int, nat>, d: Document) returns (vbos: map<int, nat>)
    requires KeysAreViews(d, vbos0)
    modifies gl
    ensures Binding(vbos, gl.State()) == Cleanup(d, Binding(vbos0, old(gl.State())))
  {
    vbos := vbos0;
    ghost var b0 := Binding(vbos0, gl.State());
    for i := 0 to |d.bufferViews|
      invariant Binding(vbos, gl.State()) == CleanupFrom(d, i, b0)
    {
      if i in vbos {
        var bufferView := d.bufferViews[i];
        if bufferView.target != ELEMENT_ARRAY_BUFFER {
          gl.Emit(DeleteBuffer(vbos[i]));
          vbos := vbos - {i};
        }
      }
    }
  }

  method BindModel(gl: Gl, d: Document, ghost rank: seq<nat>) returns (vao: nat, vbos: map<int, nat>)
    requires Tree(d, rank)
    modifies gl
    ensures vao == old(gl.next)
    ensures Binding(vbos, gl.State()) == BindModelSpec(d, rank, old(gl.State()))
    ensures vbos.Keys == if AnyMeshed(d, Visit(d, rank)) then ElementViews(d) else {}
  {
    ghost var s := gl.State();
    vbos := map[];
    vao := gl.GenVertexArray();
    gl.Emit(BindVertexArray(vao));
    ghost var b0 := Binding(vbos, gl.State());
    assert b0 == Binding(map[], GlState(s.next + 1, s.trace + [GenVertexArray(s.next), BindVertexArray(s.next)], s.texid));
    var scene := d.scenes[d.defaultScene];
    assert scene.nodes == Roots(d);
    for i := 0 to |scene.nodes|
      invariant Binding(vbos, gl.State()) == BindVisit(d, PreRoots(d, rank, i), b0)
    {
      // the source asserts that the root index is in range
      ghost var mid := Binding(vbos, gl.State());
      vbos := BindModelNodes(gl, vbos, d, rank, scene.nodes[i]);
      RootBound(d, rank, i, b0, mid, Binding(vbos, gl.State()));
    }
    BindModelClose(d, rank, s, Binding(vbos, gl.State()));
    gl.Emit(BindVertexArray(0));
    vbos := CleanupVbos(gl, vbos, d);
  }

  /** After the root loop has walked every root, unbinding the vertex array
      and cleaning up the map completes bindModel. */
  lemma BindModelClose(d: Document, rank: seq<nat>, s: GlState, b: Binding)
    requires Tree(d, rank)
    requires b == BindVisit(d, PreRoots(d, rank, |Roots(d)|),
                            Binding(map[], GlState(s.next + 1, s.trace + [GenVertexArray(s.next), BindVertexArray(s.next)], s.texid)))
    ensures KeysAreViews(d, b.vbos)
    ensures Cleanup(d, Binding(b.vbos, Emitted(b.gl, [BindVertexArray(0)]))) == BindModelSpec(d, rank, s)
    ensures BindModelSpec(d, rank, s).vbos.Keys == if AnyMeshed(d, Visit(d, rank)) then ElementViews(d) else {}
  {
    var b0 := Binding(map[], GlState(s.next + 1, s.trace + [GenVertexArray(s.next), BindVertexArray(s.next)], s.texid));
    BindVisitKeys(d, Visit(d, rank), b0);
    BindModelKeys(d, rank, s);
  }
}
