/**
 * The request gate of `proxy.ts`: every matched request either passes to the
 * page or is redirected to one fixed address. `/vip` paths always pass; the
 * root path passes only when the `Referer` header names the allowed origin.
 */
module Proxy {
  import opened Common
  import opened Text

  datatype Decision = Pass | Redirect(url: string)

  const AllowedOrigin: string := "zucchinicorp.com"
  const DestinationUrl: string := "https://zucchinicorp.com/golden-keywords"
  const VipPrefix: string := "/vip"
  const Root: string := "/"

  /**
   * `proxy(request)`, from the path and the `Referer` header (`None` when
   * the header is absent). `!referer` holds for an absent and for an empty
   * header.
   */
  function Decide(pathname: string, referer: Option<string>): (d: Decision)
    ensures d.Redirect? ==> d.url == DestinationUrl
    ensures d.Redirect? <==>
      && !StartsWith(pathname, VipPrefix)
      && pathname == Root
      && (referer.None? || !exists i :: OccursAt(referer.value, AllowedOrigin, i))
  {
    if StartsWith(pathname, VipPrefix) then Pass
    else if pathname == Root && (referer.None? || referer.value == [] || !Contains(referer.value, AllowedOrigin)) then
      Redirect(DestinationUrl)
    else Pass
  }

  /** Any path under `/vip` passes, whatever the referer. */
  lemma VipPasses(rest: string, referer: Option<string>)
    ensures Decide(VipPrefix + rest, referer) == Pass
  {
    assert (VipPrefix + rest)[..|VipPrefix|] == VipPrefix;
  }

  /** The root path without a referer is redirected. */
  lemma RootWithoutReferer()
    ensures Decide(Root, None) == Redirect(DestinationUrl)
  {
  }

  /** The root path is redirected when the referer does not mention the allowed origin anywhere. */
  lemma RootForeignReferer(referer: string)
    requires forall i :: !OccursAt(referer, AllowedOrigin, i)
    ensures Decide(Root, Some(referer)) == Redirect(DestinationUrl)
  {
  }

  /** The root path passes when the allowed origin occurs anywhere in the referer. */
  lemma RootAllowedReferer(before: string, after: string)
    ensures Decide(Root, Some(before + AllowedOrigin + after)) == Pass
  {
    var referer := before + AllowedOrigin + after;
    assert OccursAt(referer, AllowedOrigin, |before|) by {
      assert referer[|before|..|before| + |AllowedOrigin|] == AllowedOrigin;
    }
  }

  /** Every other path passes. */
  lemma OtherPathsPass(pathname: string, referer: Option<string>)
    requires pathname != Root
    ensures Decide(pathname, referer) == Pass
  {
  }
}
