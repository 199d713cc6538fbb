/** What several components share: limits, a position, and a pair of maps that undo each other. */
module Shared {
  const MAX_SAFE_INTEGER := 0x1F_FFFF_FFFF_FFFF
  const MAX_TEMPLATE_DEPTH := 8

  /** The most frame time, in seconds, that one frame can be worth. */
  const MAX_FRAME_DT := 0.1

  datatype Vec = Vec(x: real, y: real, z: real)

  ghost predicate Inverse<A, B>(there: map<A, B>, back: map<B, A>) {
    && (forall a :: a in there ==> there[a] in back && back[there[a]] == a)
    && (forall b :: b in back ==> back[b] in there && there[back[b]] == b)
  }
}
