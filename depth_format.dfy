/**
 * QVk_FindDepthFormat (ref_vk/vk_common.c:245-265): the depth buffer takes
 * the first format of a fixed priority list whose optimal tiling supports
 * depth/stencil attachments, and D16_UNORM when none does. What the device
 * supports is a query to the driver; here it is the set of formats for which
 * that query reports the depth/stencil attachment feature.
 */
module DepthFormat {

  datatype Format = D32SfloatS8Uint | D32Sfloat | D24UnormS8Uint | D16UnormS8Uint | D16Unorm

  /** The candidates, best first. */
  const DEPTH_FORMATS: seq<Format> := [D32SfloatS8Uint, D32Sfloat, D24UnormS8Uint, D16UnormS8Uint, D16Unorm]

  /** f is the best-ranked candidate the device supports. */
  ghost predicate FirstSupported(supported: set<Format>, f: Format)
  {
    exists i :: 0 <= i < |DEPTH_FORMATS| && DEPTH_FORMATS[i] == f && f in supported &&
      forall j :: 0 <= j < i ==> DEPTH_FORMATS[j] !in supported
  }

  /** The search over the list, returning at the first supported entry. */
  method FindDepthFormat(supported: set<Format>) returns (f: Format)
    ensures (exists g :: g in DEPTH_FORMATS && g in supported) ==> FirstSupported(supported, f)
    ensures (forall g :: g in DEPTH_FORMATS ==> g !in supported) ==> f == D16Unorm
  {
    var i := 0;
    while i < |DEPTH_FORMATS|
      invariant 0 <= i <= |DEPTH_FORMATS|
      invariant forall j :: 0 <= j < i ==> DEPTH_FORMATS[j] !in supported
    {
      if DEPTH_FORMATS[i] in supported {
        return DEPTH_FORMATS[i];
      }
      i := i + 1;
    }
    return D16Unorm;
  }

  /** The first supported candidate is unique, so the search result is determined by the device. */
  lemma FirstSupportedUnique(supported: set<Format>, f: Format, g: Format)
    requires FirstSupported(supported, f) && FirstSupported(supported, g)
    ensures f == g
  {
    var i :| 0 <= i < |DEPTH_FORMATS| && DEPTH_FORMATS[i] == f && f in supported &&
      forall j :: 0 <= j < i ==> DEPTH_FORMATS[j] !in supported;
    var k :| 0 <= k < |DEPTH_FORMATS| && DEPTH_FORMATS[k] == g && g in supported &&
      forall j :: 0 <= j < k ==> DEPTH_FORMATS[j] !in supported;
    assert i == k;
  }
}
