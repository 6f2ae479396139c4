/** `GetByteStrideFromFormat` (common/utils.h): the stride table over DXGI formats that
    the renderer uses to derive an index count from an index-buffer size. */
module Utils {
  import opened CoreFormats
  import opened D3D12Utils

  /** `GetByteStrideFromFormat`; as in the core table, the `default:` assertion is not
      modelled and the result is 0. */
  function GetByteStrideFromFormat(d: DxgiFormat): (size: nat)
    ensures size != 0 <==> (d == DXGI_FORMAT_R32G32B32_FLOAT || d == DXGI_FORMAT_R32G32_FLOAT
                            || d == DXGI_FORMAT_R8G8B8A8_UNORM_SRGB || d == DXGI_FORMAT_R8G8B8A8_UNORM
                            || d == DXGI_FORMAT_R32_UINT || d == DXGI_FORMAT_R16_UINT)
    ensures d == DXGI_FORMAT_R8G8B8A8_UNORM_SRGB ==> size == GetByteStrideFromFormat(DXGI_FORMAT_R8G8B8A8_UNORM)
  {
    if d == DXGI_FORMAT_R32G32B32_FLOAT then 12
    else if d == DXGI_FORMAT_R32G32_FLOAT then 8
    else if d == DXGI_FORMAT_R8G8B8A8_UNORM_SRGB || d == DXGI_FORMAT_R8G8B8A8_UNORM || d == DXGI_FORMAT_R32_UINT then 4
    else if d == DXGI_FORMAT_R16_UINT then 2
    else 0
  }

  /** The two stride tables agree on every enumerator of the core format. */
  lemma StrideTablesAgree(f: Format)
    requires IsEnumerator(f)
    ensures GetByteStrideFromFormat(CoreToDxgiFormat(f)) == GetStrideFromFormat(f)
  {
  }

  /** ... but not on every value a `format` can hold: the value 29 is no core enumerator
      (the core table yields 0) while its DXGI reading, R8G8B8A8_UNORM_SRGB, has 4 bytes. */
  lemma StrideTablesDifferOffEnumerators()
    ensures !IsEnumerator(29 as Format)
    ensures GetStrideFromFormat(29 as Format) == 0
    ensures GetByteStrideFromFormat(CoreToDxgiFormat(29 as Format)) == 4
  {
  }
}
