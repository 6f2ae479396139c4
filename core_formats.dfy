/** The core `::format` and `::topology` enumerations (common/lib/core/core.h) and the
    stride table over them (common/lib/core/utils.h). */
module CoreFormats {

  /** `enum class format`: its underlying type is `int`, so a value of the type may hold
      any 32-bit integer; the enumerators follow the DXGI_FORMAT numbering. */
  newtype Format = x: int | -0x8000_0000 <= x < 0x8000_0000

  const UNKNOWN: Format := 0
  const R32G32B32_FLOAT: Format := 6
  const R32G32_FLOAT: Format := 16
  const R8G8B8A8_UNORM: Format := 28
  const R32_UINT: Format := 42
  const R16_UINT: Format := 57

  /** `enum class topology`, following D3D_PRIMITIVE_TOPOLOGY. */
  newtype Topology = x: int | -0x8000_0000 <= x < 0x8000_0000

  const TRIANGLE_LIST: Topology := 4

  /** The formats that have a stride: every enumerator except `unknown`. */
  predicate HasStride(f: Format) {
    f == R32G32B32_FLOAT || f == R32G32_FLOAT || f == R8G8B8A8_UNORM || f == R32_UINT || f == R16_UINT
  }

  /** The enumerators of `format`. */
  predicate IsEnumerator(f: Format) {
    f == UNKNOWN || HasStride(f)
  }

  /** Bit widths of the channels a format names (`r32g32b32` is three 32-bit channels):
      an independent reading of the format's name, used to check the stride table. */
  function ChannelBits(f: Format): seq<nat> {
    if f == R32G32B32_FLOAT then [32, 32, 32]
    else if f == R32G32_FLOAT then [32, 32]
    else if f == R8G8B8A8_UNORM then [8, 8, 8, 8]
    else if f == R32_UINT then [32]
    else if f == R16_UINT then [16]
    else []
  }

  function SumBits(bits: seq<nat>): nat {
    if bits == [] then 0 else bits[0] + SumBits(bits[1..])
  }

  /** `get_stride_from_format`: the size in bytes of one element of the format. The
      `default:` branch asserts in debug builds and yields 0; the model follows the
      release build and yields 0. */
  function GetStrideFromFormat(f: Format): (size: nat)
    ensures size != 0 <==> HasStride(f)
  {
    if f == R32G32B32_FLOAT then 12
    else if f == R32G32_FLOAT then 8
    else if f == R8G8B8A8_UNORM || f == R32_UINT then 4
    else if f == R16_UINT then 2
    else 0
  }

  /** The stride of every format is its channel widths added up, in bytes. */
  lemma {:induction false} StrideMatchesChannelBits(f: Format)
    ensures GetStrideFromFormat(f) * 8 == SumBits(ChannelBits(f))
  {
    var bits := ChannelBits(f);
    if |bits| > 0 {
      assert SumBits(bits) == bits[0] + SumBits(bits[1..]);
      if |bits| > 1 {
        assert SumBits(bits[1..]) == bits[1] + SumBits(bits[2..]);
        if |bits| > 2 {
          assert SumBits(bits[2..]) == bits[2] + SumBits(bits[3..]);
          if |bits| > 3 {
            assert SumBits(bits[3..]) == bits[3] + SumBits(bits[4..]);
          }
        }
      }
    }
  }
}
