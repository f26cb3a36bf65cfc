/** The GL commands each step of bindMesh appends: one upload per view with a
    non-zero target, carrying that view's target and byte range; per vertex
    attribute one buffer bind followed, for a supported semantic only, by the
    attribute's pointer setup; and the texture upload. */
module BinderCommands {
  import opened Gltf
  import opened GlTrace
  import opened SceneBinder

  /** glBufferData of view `i`'s byte range into buffer `h`, bound to the view's target. */
  function UploadOf(d: Document, i: int, h: nat): (c: Cmd)
    requires 0 <= i < |d.bufferViews|
    ensures c.BufferData? && c.handle == h && c.target == d.bufferViews[i].target
    ensures c.byteOffset == d.bufferViews[i].byteOffset && c.byteLength == d.bufferViews[i].byteLength
  {
    BufferData(d.bufferViews[i].target, h, d.bufferViews[i].byteOffset, d.bufferViews[i].byteLength)
  }

  /** The view an attribute's accessor reads from. */
  function AttribView(d: Document, a: Attribute): int
    requires 0 <= a.accessor < |d.accessors|
  {
    d.accessors[a.accessor].bufferView
  }

  /** glEnableVertexAttribArray + glVertexAttribPointer for a supported attribute. */
  function AttribEnable(d: Document, a: Attribute): (c: Cmd)
    requires 0 <= a.accessor < |d.accessors| && AttribSlot(a.semantic) >= 0
    ensures c.EnableAttrib? && c.slot == AttribSlot(a.semantic)
    ensures var acc := d.accessors[a.accessor];
            && c.size == ComponentSize(acc.accessorType) && c.componentType == acc.componentType
            && c.normalized == acc.normalized && c.byteOffset == acc.byteOffset
  {
    var acc := d.accessors[a.accessor];
    EnableAttrib(AttribSlot(a.semantic), ComponentSize(acc.accessorType), acc.componentType, acc.normalized, acc.byteOffset)
  }

  /** The commands uploading the first `k` views under the names of `m`: for
      each view with a non-zero target, in index order, the generation of its
      buffer and the upload of its byte range into it. */
  function UploadsFrom(d: Document, k: nat, m: map<int, nat>): seq<Cmd>
    requires k <= |d.bufferViews|
    requires forall i :: 0 <= i < k && d.bufferViews[i].target != 0 ==> i in m
  {
    if k == 0 then []
    else UploadsFrom(d, k - 1, m)
         + if d.bufferViews[k - 1].target != 0 then [GenBuffer(m[k - 1]), UploadOf(d, k - 1, m[k - 1])] else []
  }

  /** The upload loop appends exactly UploadsFrom under the names it hands out. */
  lemma {:induction false} UploadViewsCommands(d: Document, k: nat, b: Binding)
    requires k <= |d.bufferViews|
    ensures forall i :: 0 <= i < k && d.bufferViews[i].target != 0 ==> i in UploadViews(d, k, b).vbos
    ensures var r := UploadViews(d, k, b);
            r.gl.trace == b.gl.trace + UploadsFrom(d, k, r.vbos)
  {
    if k > 0 {
      UploadViewsCommands(d, k - 1, b);
      if d.bufferViews[k - 1].target != 0 {
        UploadStepCommands(d, k, b);
      } else {
        assert UploadViews(d, k, b) == UploadViews(d, k - 1, b);
      }
    }
  }

  /** A turn of the upload loop that generates a buffer appends its two commands. */
  lemma UploadStepCommands(d: Document, k: nat, b: Binding)
    requires 0 < k <= |d.bufferViews| && d.bufferViews[k - 1].target != 0
    requires forall i :: 0 <= i < k - 1 && d.bufferViews[i].target != 0 ==> i in UploadViews(d, k - 1, b).vbos
    requires var p := UploadViews(d, k - 1, b);
             p.gl.trace == b.gl.trace + UploadsFrom(d, k - 1, p.vbos)
    ensures forall i :: 0 <= i < k && d.bufferViews[i].target != 0 ==> i in UploadViews(d, k, b).vbos
    ensures var r := UploadViews(d, k, b);
            r.gl.trace == b.gl.trace + UploadsFrom(d, k, r.vbos)
  {
    var p, r := UploadViews(d, k - 1, b), UploadViews(d, k, b);
    assert r.vbos == p.vbos[k - 1 := p.gl.next];
    assert r.gl.trace == p.gl.trace + [GenBuffer(p.gl.next), UploadOf(d, k - 1, p.gl.next)];
    UploadsSnoc(d, k, b.gl.trace, p, r);
  }

  /** Mapping the `k`-th view to a new name and appending its two commands
      extends the uploads of the first `k - 1` views to the first `k`. */
  lemma UploadsSnoc(d: Document, k: nat, t0: seq<Cmd>, p: Binding, r: Binding)
    requires 0 < k <= |d.bufferViews| && d.bufferViews[k - 1].target != 0
    requires forall i :: 0 <= i < k - 1 && d.bufferViews[i].target != 0 ==> i in p.vbos
    requires p.gl.trace == t0 + UploadsFrom(d, k - 1, p.vbos)
    requires r.vbos == p.vbos[k - 1 := p.gl.next]
    requires r.gl.trace == p.gl.trace + [GenBuffer(p.gl.next), UploadOf(d, k - 1, p.gl.next)]
    ensures forall i :: 0 <= i < k && d.bufferViews[i].target != 0 ==> i in r.vbos
    ensures r.gl.trace == t0 + UploadsFrom(d, k, r.vbos)
  {
    UploadsFromFrame(d, k - 1, p.vbos, r.vbos);
    var step, prior := [GenBuffer(p.gl.next), UploadOf(d, k - 1, p.gl.next)], UploadsFrom(d, k - 1, r.vbos);
    assert UploadsFrom(d, k, r.vbos) == prior + step;
    assert t0 + prior + step == t0 + (prior + step);
  }

  /** UploadsFrom reads only the names of the views it uploads. */
  lemma {:induction false} UploadsFromFrame(d: Document, k: nat, m1: map<int, nat>, m2: map<int, nat>)
    requires k <= |d.bufferViews|
    requires forall i :: 0 <= i < k && d.bufferViews[i].target != 0 ==> i in m1 && i in m2 && m1[i] == m2[i]
    ensures UploadsFrom(d, k, m1) == UploadsFrom(d, k, m2)
  {
    if k > 0 {
      UploadsFromFrame(d, k - 1, m1, m2);
    }
  }

  /** A command is among the uploads exactly when it generates or fills the
      buffer of some view with a non-zero target: every such view is uploaded
      with its own target and byte range, and nothing else is issued. */
  lemma {:induction false} UploadsFromContents(d: Document, k: nat, m: map<int, nat>, c: Cmd)
    requires k <= |d.bufferViews|
    requires forall i :: 0 <= i < k && d.bufferViews[i].target != 0 ==> i in m
    ensures c in UploadsFrom(d, k, m) <==>
            exists i :: 0 <= i < k && d.bufferViews[i].target != 0 && (c == GenBuffer(m[i]) || c == UploadOf(d, i, m[i]))
  {
    if k > 0 {
      UploadsFromContents(d, k - 1, m, c);
    }
  }

  /** The commands the attribute loop issues for the first `j` attributes of
      `p` under the names of `m`: per attribute, in order, the bind of its
      view's buffer, followed by its pointer setup iff its semantic is supported. */
  function AttribCmds(d: Document, p: Primitive, j: nat, m: map<int, nat>): seq<Cmd>
    requires PrimitiveOk(d, p) && j <= |p.attributes|
    requires forall x :: 0 <= x < j ==> AttribView(d, p.attributes[x]) in m
  {
    if j == 0 then []
    else
      var a := p.attributes[j - 1];
      assert a in p.attributes;
      AttribCmds(d, p, j - 1, m) + [BindArrayBuffer(m[AttribView(d, a)])]
      + if AttribSlot(a.semantic) >= 0 then [AttribEnable(d, a)] else []
  }

  /** The attribute loop inserts every attribute's view into the map and
      appends exactly AttribCmds under the final names. */
  lemma {:induction false} BindAttribsCommands(d: Document, p: Primitive, j: nat, b: Binding)
    requires PrimitiveOk(d, p) && j <= |p.attributes|
    ensures forall x :: 0 <= x < j ==> AttribView(d, p.attributes[x]) in BindAttribs(d, p, j, b).vbos
    ensures var r := BindAttribs(d, p, j, b);
            r.gl.trace == b.gl.trace + AttribCmds(d, p, j, r.vbos)
  {
    if j > 0 {
      BindAttribsCommands(d, p, j - 1, b);
      var q, r := BindAttribs(d, p, j - 1, b), BindAttribs(d, p, j, b);
      var a := p.attributes[j - 1];
      assert a in p.attributes;
      var v := AttribView(d, a);
      var h := if v in q.vbos then q.vbos[v] else 0;
      assert r.vbos == q.vbos[v := h];
      assert r.gl.trace == q.gl.trace + [BindArrayBuffer(h)] + if AttribSlot(a.semantic) >= 0 then [AttribEnable(d, a)] else [];
      AttribsSnoc(d, p, j, b.gl.trace, q, r, h);
    }
  }

  /** Binding the `j`-th attribute's buffer (inserting its view with name 0 when
      absent) and appending its setup extends the commands of the first
      `j - 1` attributes to the first `j`. */
  lemma AttribsSnoc(d: Document, p: Primitive, j: nat, t0: seq<Cmd>, q: Binding, r: Binding, h: nat)
    requires PrimitiveOk(d, p) && 0 < j <= |p.attributes|
    requires forall x :: 0 <= x < j - 1 ==> AttribView(d, p.attributes[x]) in q.vbos
    requires q.gl.trace == t0 + AttribCmds(d, p, j - 1, q.vbos)
    requires p.attributes[j - 1] in p.attributes
    requires AttribView(d, p.attributes[j - 1]) in q.vbos ==> h == q.vbos[AttribView(d, p.attributes[j - 1])]
    requires r.vbos == q.vbos[AttribView(d, p.attributes[j - 1]) := h]
    requires r.gl.trace == q.gl.trace + [BindArrayBuffer(h)]
               + if AttribSlot(p.attributes[j - 1].semantic) >= 0 then [AttribEnable(d, p.attributes[j - 1])] else []
    ensures forall x :: 0 <= x < j ==> AttribView(d, p.attributes[x]) in r.vbos
    ensures r.gl.trace == t0 + AttribCmds(d, p, j, r.vbos)
  {
    var a := p.attributes[j - 1];
    AttribCmdsFrame(d, p, j - 1, q.vbos, r.vbos);
    var enable := if AttribSlot(a.semantic) >= 0 then [AttribEnable(d, a)] else [];
    var prior := AttribCmds(d, p, j - 1, r.vbos);
    assert AttribCmds(d, p, j, r.vbos) == prior + [BindArrayBuffer(h)] + enable;
    assert t0 + prior + [BindArrayBuffer(h)] + enable == t0 + (prior + [BindArrayBuffer(h)] + enable);
  }

  /** AttribCmds reads only the names of the attributes' views. */
  lemma {:induction false} AttribCmdsFrame(d: Document, p: Primitive, j: nat, m1: map<int, nat>, m2: map<int, nat>)
    requires PrimitiveOk(d, p) && j <= |p.attributes|
    requires forall x :: 0 <= x < j ==> AttribView(d, p.attributes[x]) in m1 && AttribView(d, p.attributes[x]) in m2
    requires forall x :: 0 <= x < j ==> m1[AttribView(d, p.attributes[x])] == m2[AttribView(d, p.attributes[x])]
    ensures AttribCmds(d, p, j, m1) == AttribCmds(d, p, j, m2)
  {
    if j > 0 {
      AttribCmdsFrame(d, p, j - 1, m1, m2);
    }
  }

  /** Every attribute with a supported semantic is set up, and every setup
      belongs to such an attribute: an unsupported semantic enables nothing. */
  lemma {:induction false} AttribCmdsEnables(d: Document, p: Primitive, j: nat, m: map<int, nat>, c: Cmd)
    requires PrimitiveOk(d, p) && j <= |p.attributes|
    requires forall x :: 0 <= x < j ==> AttribView(d, p.attributes[x]) in m
    ensures c in AttribCmds(d, p, j, m) && c.EnableAttrib? <==>
            exists x :: 0 <= x < j && AttribSlot(p.attributes[x].semantic) >= 0 && c == AttribEnable(d, p.attributes[x])
    ensures c in AttribCmds(d, p, j, m) && !c.EnableAttrib? ==> c.BindArrayBuffer?
  {
    if j > 0 {
      AttribCmdsEnables(d, p, j - 1, m, c);
    }
  }

  /** A texture block that fires appends the generation of the new global
      texture and the upload of the first texture's image, read with as many
      channels as the image has (four for any other count) and, for 8- and
      16-bit images, with the image's channel depth. */
  lemma TextureUploadMatchesImage(d: Document, b: Binding)
    requires TextureOk(d) && |d.textures| > 0 && d.textures[0].source > -1
    ensures var r := TextureStep(d, b);
            var image := d.images[d.textures[0].source];
            var upload := r.gl.trace[|b.gl.trace| + 1];
            && upload.TexImage? && upload.internalFormat == RGBA
            && upload.width == image.width && upload.height == image.height
            && Channels(upload.format) == (if 1 <= image.component <= 3 then image.component else 4)
            && (image.bits == 8 || image.bits == 16 ==> 8 * ChannelBytes(upload.pixelType) == image.bits)
  {
    var image := d.images[d.textures[0].source];
    FormatMatchesChannels(image.component);
    if image.bits == 8 || image.bits == 16 {
      TypeMatchesDepth(image.bits);
    }
  }
}
