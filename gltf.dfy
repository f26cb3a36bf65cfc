/** The parsed glTF 2.0 document the viewer consumes (section 3.5 "Scenes" and
    section 5.11 "Buffer View" of the glTF 2.0 specification), reduced to the
    fields that binding and drawing read, and the depth-first pre-order in which
    both walk its node tree. */
module Gltf {

  /** Buffer-view targets: 0 (none), ARRAY_BUFFER, ELEMENT_ARRAY_BUFFER. */
  const ARRAY_BUFFER: int := 34962
  const ELEMENT_ARRAY_BUFFER: int := 34963

  /** tinygltf's type code of a SCALAR accessor; VEC2..VEC4 are 2..4 and MAT2..MAT4 are 34..36. */
  const TYPE_SCALAR: int := 65

  /** `mesh` is -1 when the node has none; `children` are indices into `nodes`. */
  datatype Node = Node(mesh: int, children: seq<int>)

  /** One entry of a primitive's attribute map, in the map's iteration order. */
  datatype Attribute = Attribute(semantic: string, accessor: int)

  /** `indices` is the index of the accessor holding the primitive's indices. */
  datatype Primitive = Primitive(mode: int, indices: int, attributes: seq<Attribute>)

  datatype Mesh = Mesh(primitives: seq<Primitive>)

  datatype Accessor = Accessor(
    bufferView: int,
    byteOffset: int,
    componentType: int,
    count: int,
    accessorType: int,
    normalized: bool)

  datatype BufferView = BufferView(buffer: int, byteOffset: int, byteLength: int, target: int)

  /** `component` is the number of channels, `bits` the bit depth of one channel. */
  datatype Image = Image(width: int, height: int, component: int, bits: int)

  /** `source` is an index into `images`, or -1. */
  datatype Texture = Texture(source: int)

  /** The root nodes of a scene, in order. */
  datatype Scene = Scene(nodes: seq<int>)

  datatype Document = Document(
    nodes: seq<Node>,
    meshes: seq<Mesh>,
    accessors: seq<Accessor>,
    bufferViews: seq<BufferView>,
    images: seq<Image>,
    textures: seq<Texture>,
    scenes: seq<Scene>,
    defaultScene: int)

  /** The node's mesh is processed only when its index is in range; -1 and
      out-of-range indices are skipped silently. */
  predicate HasMesh(d: Document, n: int)
    requires 0 <= n < |d.nodes|
  {
    0 <= d.nodes[n].mesh < |d.meshes|
  }

  function MeshOf(d: Document, n: int): Mesh
    requires 0 <= n < |d.nodes| && HasMesh(d, n)
  {
    d.meshes[d.nodes[n].mesh]
  }

  /** A primitive whose accessor references can be followed without leaving
      the document's arrays (the source indexes them unchecked). */
  predicate PrimitiveOk(d: Document, p: Primitive) {
    && 0 <= p.indices < |d.accessors|
    && forall a :: a in p.attributes ==>
         && 0 <= a.accessor < |d.accessors|
         && 0 <= d.accessors[a.accessor].bufferView < |d.bufferViews|
  }

  predicate MeshOk(d: Document, mesh: Mesh) {
    forall p :: p in mesh.primitives ==> PrimitiveOk(d, p)
  }

  /** The default scene's root nodes. */
  function Roots(d: Document): seq<int>
    requires 0 <= d.defaultScene < |d.scenes|
  {
    d.scenes[d.defaultScene].nodes
  }

  /** The first texture, when it names an image, names one in range. */
  predicate TextureOk(d: Document) {
    |d.textures| > 0 && d.textures[0].source > -1 ==> d.textures[0].source < |d.images|
  }

  /** What the binder and the renderer rely on without checking: a default
      scene, root indices in range, accessor references in range, and the
      first texture's image in range. The accessor condition is asked of
      every mesh, including meshes no visited node names; the walks only
      need it for visited ones, and a valid glTF file meets it for all. */
  ghost predicate WellFormed(d: Document) {
    && 0 <= d.defaultScene < |d.scenes|
    && (forall k :: 0 <= k < |Roots(d)| ==> 0 <= Roots(d)[k] < |d.nodes|)
    && (forall mesh :: mesh in d.meshes ==> MeshOk(d, mesh))
    && TextureOk(d)
  }

  /** Children are in range and every child ranks strictly below its parent,
      so the node graph has no cycle. Like WellFormed this covers every node,
      also those no scene reaches: a valid glTF file's nodes form disjoint
      trees, so a rank exists for all of them. */
  ghost predicate Ranked(d: Document, rank: seq<nat>) {
    && |rank| == |d.nodes|
    && forall n, k :: 0 <= n < |d.nodes| && 0 <= k < |d.nodes[n].children| ==>
         && 0 <= d.nodes[n].children[k] < |d.nodes|
         && rank[d.nodes[n].children[k]] < rank[n]
  }

  ghost predicate Tree(d: Document, rank: seq<nat>) {
    WellFormed(d) && Ranked(d, rank)
  }

  /** Depth-first pre-order of the subtree rooted at `n`. */
  function Pre(d: Document, rank: seq<nat>, n: int): (r: seq<int>)
    requires Tree(d, rank) && 0 <= n < |d.nodes|
    ensures |r| >= 1 && r[0] == n
    ensures forall x :: x in r ==> 0 <= x < |d.nodes|
    decreases rank[n], |d.nodes[n].children| + 1
  {
    [n] + PreChildren(d, rank, n, |d.nodes[n].children|)
  }

  /** Pre-order of the subtrees of the first `i` children of `n`, in order. */
  function PreChildren(d: Document, rank: seq<nat>, n: int, i: nat): (r: seq<int>)
    requires Tree(d, rank) && 0 <= n < |d.nodes| && i <= |d.nodes[n].children|
    ensures forall x :: x in r ==> 0 <= x < |d.nodes|
    decreases rank[n], i
  {
    if i == 0 then []
    else PreChildren(d, rank, n, i - 1) + Pre(d, rank, d.nodes[n].children[i - 1])
  }

  /** Pre-order of the subtrees of the first `i` roots of the default scene. */
  function PreRoots(d: Document, rank: seq<nat>, i: nat): (r: seq<int>)
    requires Tree(d, rank) && i <= |Roots(d)|
    ensures forall x :: x in r ==> 0 <= x < |d.nodes|
  {
    if i == 0 then []
    else PreRoots(d, rank, i - 1) + Pre(d, rank, Roots(d)[i - 1])
  }

  /** The order in which binding and drawing both visit the nodes. */
  function Visit(d: Document, rank: seq<nat>): (r: seq<int>)
    requires Tree(d, rank)
    ensures forall x :: x in r ==> 0 <= x < |d.nodes|
  {
    PreRoots(d, rank, |Roots(d)|)
  }

  /** Every node of a child's subtree is in the parent's subtree. */
  lemma {:induction false} PreChildrenIncludes(d: Document, rank: seq<nat>, n: int, i: nat, k: nat)
    requires Tree(d, rank) && 0 <= n < |d.nodes| && k < i <= |d.nodes[n].children|
    ensures forall x :: x in Pre(d, rank, d.nodes[n].children[k]) ==> x in PreChildren(d, rank, n, i)
  {
    if k < i - 1 {
      PreChildrenIncludes(d, rank, n, i - 1, k);
    }
  }

  lemma PreIncludesChild(d: Document, rank: seq<nat>, n: int, k: nat)
    requires Tree(d, rank) && 0 <= n < |d.nodes| && k < |d.nodes[n].children|
    ensures forall x :: x in Pre(d, rank, d.nodes[n].children[k]) ==> x in Pre(d, rank, n)
  {
    PreChildrenIncludes(d, rank, n, |d.nodes[n].children|, k);
  }

  /** Every node of a root's subtree is visited. */
  lemma {:induction false} PreRootsIncludes(d: Document, rank: seq<nat>, i: nat, k: nat)
    requires Tree(d, rank) && k < i <= |Roots(d)|
    ensures forall x :: x in Pre(d, rank, Roots(d)[k]) ==> x in PreRoots(d, rank, i)
  {
    if k < i - 1 {
      PreRootsIncludes(d, rank, i - 1, k);
    }
  }

  /** A node is visited exactly when some root's subtree contains it. */
  lemma VisitCoversRoots(d: Document, rank: seq<nat>, x: int)
    requires Tree(d, rank)
    ensures x in Visit(d, rank) <==> exists k :: 0 <= k < |Roots(d)| && x in Pre(d, rank, Roots(d)[k])
  {
    if x in Visit(d, rank) {
      RootsCover(d, rank, |Roots(d)|, x);
    } else {
      forall k | 0 <= k < |Roots(d)| ensures x !in Pre(d, rank, Roots(d)[k]) {
        PreRootsIncludes(d, rank, |Roots(d)|, k);
      }
    }
  }

  lemma {:induction false} RootsCover(d: Document, rank: seq<nat>, i: nat, x: int)
    requires Tree(d, rank) && i <= |Roots(d)| && x in PreRoots(d, rank, i)
    ensures exists k :: 0 <= k < i && x in Pre(d, rank, Roots(d)[k])
  {
    if x !in Pre(d, rank, Roots(d)[i - 1]) {
      RootsCover(d, rank, i - 1, x);
    }
  }

  /** The pre-order of fewer children is a prefix of the pre-order of more. */
  lemma {:induction false} PreChildrenPrefix(d: Document, rank: seq<nat>, n: int, i: nat, j: nat)
    requires Tree(d, rank) && 0 <= n < |d.nodes| && i <= j <= |d.nodes[n].children|
    ensures PreChildren(d, rank, n, i) <= PreChildren(d, rank, n, j)
    decreases j
  {
    if i < j {
      PreChildrenPrefix(d, rank, n, i, j - 1);
    }
  }

  /** A node followed by the subtrees of its first `i` children is a prefix of
      the node's own pre-order. */
  lemma NodePrefix(d: Document, rank: seq<nat>, n: int, i: nat)
    requires Tree(d, rank) && 0 <= n < |d.nodes| && i <= |d.nodes[n].children|
    ensures [n] + PreChildren(d, rank, n, i) <= Pre(d, rank, n)
  {
    PreChildrenPrefix(d, rank, n, i, |d.nodes[n].children|);
  }

  /** The walk of a node and its first `i + 1` children extends the walk of the
      node and its first `i` children by the `i`-th child's subtree. */
  lemma NodeStep(d: Document, rank: seq<nat>, n: int, i: nat)
    requires Tree(d, rank) && 0 <= n < |d.nodes| && i < |d.nodes[n].children|
    ensures [n] + PreChildren(d, rank, n, i + 1) == [n] + PreChildren(d, rank, n, i) + Pre(d, rank, d.nodes[n].children[i])
  {
  }

  /** The pre-order of fewer roots is a prefix of the pre-order of more. */
  lemma {:induction false} PreRootsPrefix(d: Document, rank: seq<nat>, i: nat, j: nat)
    requires Tree(d, rank) && i <= j <= |Roots(d)|
    ensures PreRoots(d, rank, i) <= PreRoots(d, rank, j)
    decreases j
  {
    if i < j {
      PreRootsPrefix(d, rank, i, j - 1);
    }
  }
}
