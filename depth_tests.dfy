/** Depth-format selection (src/renderer/depth_tests.rs).

    The driver's per-format answer (`vkGetPhysicalDeviceFormatProperties`) is passed in as
    the total function `query`.
 */
module DepthTests {
  import opened Vk

  datatype FormatError = NoSupportedFormat

  /** Whether a format's reported features cover `features` for the given tiling; only
      LINEAR and OPTIMAL tiling are looked at, any other tiling never matches. */
  predicate SupportsFeatures(properties: FormatProperties, tiling: ImageTiling,
                             features: set<FormatFeature>)
  {
    match tiling
    case LINEAR => features <= properties.linearTilingFeatures
    case OPTIMAL => features <= properties.optimalTilingFeatures
    case DRM_FORMAT_MODIFIER => false
  }

  /** `get_supported_format`: the first candidate, in list order, whose features for
      `tiling` contain `features`; an error when no candidate does. */
  function GetSupportedFormat(candidates: seq<Format>, tiling: ImageTiling,
                              features: set<FormatFeature>,
                              query: Format -> FormatProperties): (r: Result<Format, FormatError>)
    ensures r.Ok? ==>
      exists i :: 0 <= i < |candidates| && candidates[i] == r.value
        && SupportsFeatures(query(candidates[i]), tiling, features)
        && forall j :: 0 <= j < i ==> !SupportsFeatures(query(candidates[j]), tiling, features)
    ensures r.Err? <==>
      forall j :: 0 <= j < |candidates| ==> !SupportsFeatures(query(candidates[j]), tiling, features)
  {
    if |candidates| == 0 then Err(NoSupportedFormat)
    else if SupportsFeatures(query(candidates[0]), tiling, features) then Ok(candidates[0])
    else
      var rest := GetSupportedFormat(candidates[1..], tiling, features, query);
      assert rest.Ok? ==> (exists i :: 1 <= i < |candidates| && candidates[i] == rest.value
                             && SupportsFeatures(query(candidates[i]), tiling, features)
                             && forall j :: 0 <= j < i ==>
                                  !SupportsFeatures(query(candidates[j]), tiling, features)) by {
        if rest.Ok? {
          var k :| 0 <= k < |candidates[1..]| && candidates[1..][k] == rest.value
            && SupportsFeatures(query(candidates[1..][k]), tiling, features)
            && forall j :: 0 <= j < k ==> !SupportsFeatures(query(candidates[1..][j]), tiling, features);
          assert forall j :: 1 <= j < k + 1 ==> candidates[j] == candidates[1..][j - 1];
        }
      }
      assert rest.Err? ==> forall j :: 1 <= j < |candidates| ==> candidates[j] == candidates[1..][j - 1];
      rest
  }

  /** The depth formats tried, most preferred first. */
  const DEPTH_CANDIDATES: seq<Format> := [D32_SFLOAT, D32_SFLOAT_S8_UINT, D24_UNORM_S8_UINT]

  /** `get_depth_format`: the first of the depth candidates whose OPTIMAL tiling supports
      use as a depth-stencil attachment. */
  function GetDepthFormat(query: Format -> FormatProperties): Result<Format, FormatError>
  {
    GetSupportedFormat(DEPTH_CANDIDATES, OPTIMAL, {DEPTH_STENCIL_ATTACHMENT}, query)
  }

  predicate DepthAttachable(query: Format -> FormatProperties, f: Format) {
    DEPTH_STENCIL_ATTACHMENT in query(f).optimalTilingFeatures
  }

  /** The depth format chosen is D32_SFLOAT when it is attachable, otherwise
      D32_SFLOAT_S8_UINT when that is, otherwise D24_UNORM_S8_UINT when that is, and
      otherwise the search fails. */
  lemma DepthFormatPreference(query: Format -> FormatProperties)
    ensures GetDepthFormat(query) ==
      if DepthAttachable(query, D32_SFLOAT) then Ok(D32_SFLOAT)
      else if DepthAttachable(query, D32_SFLOAT_S8_UINT) then Ok(D32_SFLOAT_S8_UINT)
      else if DepthAttachable(query, D24_UNORM_S8_UINT) then Ok(D24_UNORM_S8_UINT)
      else Err(NoSupportedFormat)
  {
    var r := GetDepthFormat(query);
    if r.Ok? {
      var i :| 0 <= i < 3 && DEPTH_CANDIDATES[i] == r.value
        && SupportsFeatures(query(DEPTH_CANDIDATES[i]), OPTIMAL, {DEPTH_STENCIL_ATTACHMENT})
        && forall j :: 0 <= j < i ==> !SupportsFeatures(query(DEPTH_CANDIDATES[j]), OPTIMAL, {DEPTH_STENCIL_ATTACHMENT});
      assert i == 0 || !DepthAttachable(query, D32_SFLOAT);
      assert i == 2 ==> !DepthAttachable(query, D32_SFLOAT_S8_UINT);
    } else {
      assert !DepthAttachable(query, DEPTH_CANDIDATES[0]);
      assert !DepthAttachable(query, DEPTH_CANDIDATES[1]);
      assert !DepthAttachable(query, DEPTH_CANDIDATES[2]);
    }
  }
}
