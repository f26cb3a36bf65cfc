/** The GPU side of binding and drawing, reduced to what can be observed: a
    counter that hands out fresh object names and an append-only trace of the
    commands issued, plus the process-wide texture name `texid`. */
module GlTrace {

  /** GL enumerants that appear in commands. */
  const RGBA: int := 0x1908

  datatype Cmd =
    | GenBuffer(handle: nat)
      // glBindBuffer + glBufferData of one buffer view's byte range
    | BufferData(target: int, handle: nat, byteOffset: int, byteLength: int)
    | DeleteBuffer(handle: nat)
    | GenVertexArray(handle: nat)
    | BindVertexArray(handle: nat)
    | BindArrayBuffer(handle: nat)
      // glEnableVertexAttribArray + glVertexAttribPointer
    | EnableAttrib(slot: nat, size: int, componentType: int, normalized: bool, byteOffset: int)
    | GenTexture(handle: nat)
    | TexImage(internalFormat: int, width: int, height: int, format: int, pixelType: int)
      // glBindBuffer(ELEMENT_ARRAY_BUFFER) + glBindTexture + glDrawElements
    | DrawElements(mode: int, count: int, componentType: int, byteOffset: int, indexBuffer: nat, texture: nat)

  /** The value of the GPU state: next fresh name, commands so far, current texture. */
  datatype GlState = GlState(next: nat, trace: seq<Cmd>, texid: nat)

  function Emitted(s: GlState, cmds: seq<Cmd>): GlState
  {
    s.(trace := s.trace + cmds)
  }

  lemma EmittedTwice(s: GlState, a: seq<Cmd>, b: seq<Cmd>)
    ensures Emitted(Emitted(s, a), b) == Emitted(s, a + b)
  {
  }

  class Gl {
    var next: nat
    var trace: seq<Cmd>
    var texid: nat

    function State(): GlState
      reads this
    {
      GlState(next, trace, texid)
    }

    /** GL never hands out the name 0, so the first fresh name is 1. */
    constructor ()
      ensures State() == GlState(1, [], 0)
    {
      next, trace, texid := 1, [], 0;
    }

    method GenBuffer() returns (h: nat)
      modifies this
      ensures h == old(next)
      ensures State() == GlState(h + 1, old(trace) + [Cmd.GenBuffer(h)], old(texid))
    {
      h := next;
      next, trace := next + 1, trace + [Cmd.GenBuffer(h)];
    }

    method GenVertexArray() returns (h: nat)
      modifies this
      ensures h == old(next)
      ensures State() == GlState(h + 1, old(trace) + [Cmd.GenVertexArray(h)], old(texid))
    {
      h := next;
      next, trace := next + 1, trace + [Cmd.GenVertexArray(h)];
    }

    /** glGenTextures writes straight into the global texture name. */
    method GenTexture()
      modifies this
      ensures State() == GlState(old(next) + 1, old(trace) + [Cmd.GenTexture(old(next))], old(next))
    {
      texid := next;
      next, trace := next + 1, trace + [Cmd.GenTexture(texid)];
    }

    method Emit(c: Cmd)
      modifies this
      ensures State() == Emitted(old(State()), [c])
    {
      trace := trace + [c];
    }
  }
}
