/**
 Homogeneous transforms, kept abstract.

 A transform is represented by the word of primitive factors (scales,
 translations, rotations, each named by an `id`, or the inverse of one) whose
 product it is. The product of two transforms is the concatenation of their
 words, which makes the product associative with the empty word as identity,
 and the inverse reverses the word and inverts every factor. Two equal words
 denote equal matrices; the model never relies on the converse.
 */
module Transform {

  datatype Factor = Factor(id: nat, inverted: bool)

  type Matrix = seq<Factor>

  const Identity: Matrix := []

  function Mul(a: Matrix, b: Matrix): Matrix
  {
    a + b
  }

  function InvFactor(f: Factor): Factor
  {
    f.(inverted := !f.inverted)
  }

  /** `inv`: the factors in reverse order, each inverted. */
  function Inv(m: Matrix): (r: Matrix)
    ensures |r| == |m|
    ensures forall k :: 0 <= k < |m| ==> r[k] == InvFactor(m[|m| - 1 - k])
  {
    if m == [] then [] else Inv(m[1..]) + [InvFactor(m[0])]
  }

  lemma MulAssociative(a: Matrix, b: Matrix, c: Matrix)
    ensures Mul(Mul(a, b), c) == Mul(a, Mul(b, c))
  {
  }

  /** Inverting twice gives back the transform. */
  lemma InvInvolutive(m: Matrix)
    ensures Inv(Inv(m)) == m
  {
  }

  /** The inverse of a product is the product of the inverses, in reverse
      order: `inv(a * b) = inv(b) * inv(a)`. */
  lemma InvOfProduct(a: Matrix, b: Matrix)
    ensures Inv(Mul(a, b)) == Mul(Inv(b), Inv(a))
  {
  }
}
