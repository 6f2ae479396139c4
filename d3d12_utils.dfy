/** The DXGI_FORMAT and D3D_PRIMITIVE_TOPOLOGY values the renderer uses, and the casts
    between them and the core enumerations (common/lib/d3d12/d3d12_utils.h). */
module D3D12Utils {
  import opened CoreFormats

  /** DXGI_FORMAT: a C enumeration whose values are 32-bit integers. */
  newtype DxgiFormat = x: int | -0x8000_0000 <= x < 0x8000_0000

  const DXGI_FORMAT_UNKNOWN: DxgiFormat := 0
  const DXGI_FORMAT_R32G32B32_FLOAT: DxgiFormat := 6
  const DXGI_FORMAT_R32G32_FLOAT: DxgiFormat := 16
  const DXGI_FORMAT_R8G8B8A8_UNORM: DxgiFormat := 28
  const DXGI_FORMAT_R8G8B8A8_UNORM_SRGB: DxgiFormat := 29
  const DXGI_FORMAT_R32_UINT: DxgiFormat := 42
  const DXGI_FORMAT_R16_UINT: DxgiFormat := 57

  /** D3D_PRIMITIVE_TOPOLOGY. */
  newtype D3DPrimitiveTopology = x: int | -0x8000_0000 <= x < 0x8000_0000

  const D3D_PRIMITIVE_TOPOLOGY_TRIANGLELIST: D3DPrimitiveTopology := 4

  /** `core_to_dxgi_format`: a `static_cast`, so the numeric value is kept. */
  function CoreToDxgiFormat(f: Format): (d: DxgiFormat)
    ensures d as int == f as int
  {
    f as int as DxgiFormat
  }

  /** `dxgi_to_core_format`: a `static_cast` back. */
  function DxgiToCoreFormat(d: DxgiFormat): (f: Format)
    ensures f as int == d as int
  {
    d as int as Format
  }

  /** `core_to_d3d_topology`. */
  function CoreToD3DTopology(t: Topology): (d: D3DPrimitiveTopology)
    ensures d as int == t as int
  {
    t as int as D3DPrimitiveTopology
  }

  /** `d3d_to_core_topology`. */
  function D3DToCoreTopology(d: D3DPrimitiveTopology): (t: Topology)
    ensures t as int == d as int
  {
    d as int as Topology
  }

  lemma FormatRoundTrips(f: Format, d: DxgiFormat)
    ensures DxgiToCoreFormat(CoreToDxgiFormat(f)) == f
    ensures CoreToDxgiFormat(DxgiToCoreFormat(d)) == d
  {
  }

  lemma TopologyRoundTrips(t: Topology, d: D3DPrimitiveTopology)
    ensures D3DToCoreTopology(CoreToD3DTopology(t)) == t
    ensures CoreToD3DTopology(D3DToCoreTopology(d)) == d
  {
  }

  /** Each named core format lands on the DXGI format of the same name. */
  lemma CoreFormatsNameDxgiFormats()
    ensures CoreToDxgiFormat(UNKNOWN) == DXGI_FORMAT_UNKNOWN
    ensures CoreToDxgiFormat(R32G32B32_FLOAT) == DXGI_FORMAT_R32G32B32_FLOAT
    ensures CoreToDxgiFormat(R32G32_FLOAT) == DXGI_FORMAT_R32G32_FLOAT
    ensures CoreToDxgiFormat(R8G8B8A8_UNORM) == DXGI_FORMAT_R8G8B8A8_UNORM
    ensures CoreToDxgiFormat(R32_UINT) == DXGI_FORMAT_R32_UINT
    ensures CoreToDxgiFormat(R16_UINT) == DXGI_FORMAT_R16_UINT
    ensures CoreToD3DTopology(TRIANGLE_LIST) == D3D_PRIMITIVE_TOPOLOGY_TRIANGLELIST
  {
  }
}
