/** The GBA core's reported video size: the LCD resolution, multiplied by
    the GL renderer's scale when a GL output texture is attached. The
    products are formed in a signed `int`, where overflow is undefined;
    the model takes the value modulo 2^32 that storing them into the
    `unsigned` results would give under two's-complement wrap-around. */
module VideoSize {

  const HorizontalPixels: nat := 240
  const VerticalPixels: nat := 160
  const UintModulus: nat := 0x1_0000_0000

  /** `(unsigned) v` for a C `int`. */
  function ToUnsigned(v: int): (r: nat)
    ensures r < UintModulus
    ensures 0 <= v < UintModulus ==> r == v
  {
    v % UintModulus
  }

  /** The renderer state the size depends on: whether a GL output texture
      is attached (`outputTex != -1`) and the GL renderer's scale. */
  datatype GlRenderer = GlRenderer(attached: bool, scale: int)

  /** `_GBACoreVideoScale`. */
  function VideoScale(gl: GlRenderer): (r: nat)
    ensures r < UintModulus
    ensures !gl.attached ==> r == 1
  {
    if gl.attached then ToUnsigned(gl.scale) else 1
  }

  /** `_GBACoreCurrentVideoSize`. */
  function CurrentVideoSize(gl: GlRenderer): (r: (nat, nat))
    ensures r.0 < UintModulus && r.1 < UintModulus
    ensures !gl.attached ==> r == (HorizontalPixels, VerticalPixels)
  {
    var scale := if gl.attached then gl.scale else 1;
    (ToUnsigned(HorizontalPixels * scale), ToUnsigned(VerticalPixels * scale))
  }

  /** The reported size is the base size times the reported scale, modulo
      2^32; for a positive scale that does not overflow it is exactly
      that product and keeps the 3:2 aspect ratio. */
  lemma SizeIsScaledBase(gl: GlRenderer)
    ensures CurrentVideoSize(gl).0 == (HorizontalPixels * VideoScale(gl)) % UintModulus
    ensures CurrentVideoSize(gl).1 == (VerticalPixels * VideoScale(gl)) % UintModulus
    ensures 0 < VideoScale(gl) && HorizontalPixels * VideoScale(gl) < UintModulus ==>
              2 * CurrentVideoSize(gl).0 == 3 * CurrentVideoSize(gl).1
  {
    if gl.attached {
      var s := gl.scale;
      ModOfProduct(HorizontalPixels, s);
      ModOfProduct(VerticalPixels, s);
    }
  }

  /** Multiplying by a constant commutes with reduction modulo 2^32. */
  lemma ModOfProduct(c: nat, s: int)
    ensures (c * s) % UintModulus == (c * (s % UintModulus)) % UintModulus
  {
    var m := UintModulus;
    var q := s / m;
    assert s == q * m + s % m;
    assert c * s == (c * q) * m + c * (s % m);
  }
}
