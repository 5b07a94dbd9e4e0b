/** The PWA integration: `get_community_cache_urls` and
    `setup_community_pwa`, which extends an existing cache-URL list with the
    community stylesheets it does not hold yet. */
module Pwa {
  import opened Wrappers
  import Strings
  import opened Setup

  /** The stylesheets a PWA caches: the five page assets, then the form and
      button sheets. */
  function CacheFiles(): seq<string> {
    AssetFiles() + ["forms.css", "buttons.css"]
  }

  /** `get_community_cache_urls`: seven URLs under the stripped prefix. */
  function GetCommunityCacheUrls(staticUrl: string := DefaultStaticUrl): (r: seq<string>)
    ensures |r| == 7
    ensures forall i :: 0 <= i < 7 ==> r[i] == AssetUrl(Strings.RStripChar(staticUrl, '/'), CacheFiles()[i])
  {
    var base := Strings.RStripChar(staticUrl, '/');
    seq(7, i requires 0 <= i < 7 => AssetUrl(base, CacheFiles()[i]))
  }

  /** The first five cache URLs are exactly the hrefs of the stylesheet
      links `get_community_assets` returns for the same prefix. */
  lemma CacheUrlsExtendAssets(staticUrl: string)
    ensures forall i :: 0 <= i < 5 ==>
      Some(GetCommunityCacheUrls(staticUrl)[i]) == Href(GetCommunityAssets(staticUrl)[i])
  {
  }

  /** `setup_community_pwa`: raises unless PWA is enabled; without a cache
      list it does nothing (and creates none); otherwise it appends the
      cache URLs missing from the list, in order. */
  function SetupCommunityPwa(app: App, staticUrl: string := DefaultStaticUrl): (r: Result<App, SetupError>)
    ensures r.Failure? <==> !app.pwaEnabled
    ensures r.Failure? ==> r.error == PwaNotEnabled
    ensures r.Success? ==> r.value.(cacheUrls := app.cacheUrls) == app
    ensures r.Success? && app.cacheUrls.None? ==> r.value == app
    ensures r.Success? && app.cacheUrls.Some? ==>
      && r.value.cacheUrls.Some?
      && app.cacheUrls.value <= r.value.cacheUrls.value
      && (forall i :: 0 <= i < 7 ==> GetCommunityCacheUrls(staticUrl)[i] in r.value.cacheUrls.value)
      && r.value.cacheUrls.value[|app.cacheUrls.value|..] ==
         Absent(GetCommunityCacheUrls(staticUrl), set u | u in app.cacheUrls.value)
  {
    if !app.pwaEnabled then Failure(PwaNotEnabled)
    else if app.cacheUrls.None? then Success(app)
    else
      var c := app.cacheUrls.value;
      var urls := GetCommunityCacheUrls(staticUrl);
      var added := Absent(urls, set u | u in c);
      var c' := c + added;
      assert c'[|c|..] == added;
      assert forall i :: 0 <= i < 7 ==> urls[i] in c' by {
        forall i | 0 <= i < 7 ensures urls[i] in c' {
          if urls[i] !in c {
            assert urls[i] in added;
          }
        }
      }
      Success(app.(cacheUrls := Some(c')))
  }

  /** A second `setup_community_pwa` with the same prefix changes nothing. */
  lemma {:induction false} SetupCommunityPwaIdempotent(app: App, staticUrl: string)
    requires SetupCommunityPwa(app, staticUrl).Success?
    ensures var app1 := SetupCommunityPwa(app, staticUrl).value;
      SetupCommunityPwa(app1, staticUrl) == Success(app1)
  {
    var app1 := SetupCommunityPwa(app, staticUrl).value;
    if app1.cacheUrls.Some? {
      var c := app1.cacheUrls.value;
      var urls := GetCommunityCacheUrls(staticUrl);
      AbsentWhenAllPresent(urls, set u | u in c);
      assert c + [] == c;
    }
  }
}
