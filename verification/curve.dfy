/** Points of the twisted Edwards curve ed_on_bn254, as far as the step
    circuit needs them: values that are carried around and handed to the
    signature-verification gadget, never computed with. */
module Curve {
  import opened Field

  /** An affine point; both coordinates live in the circuit field. */
  datatype Point = Point(x: Fp, y: Fp)

  /** The group identity, the affine point (0, 1) of a twisted Edwards curve.
      It is not the all-zero bit pattern. */
  const Identity: Point := Point(0, 1)
}
