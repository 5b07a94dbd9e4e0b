/** The setup/mount gate: `get_community_assets` and `setup_community`,
    which check that Bootstrap is already in the app's headers, mount the
    static route once, append the missing stylesheet links and, in PWA mode,
    extend the app's cache-URL list. The app is a value here: a call that
    raises returns the error and leaves the caller's app as it was. */
module Setup {
  import opened Wrappers
  import Strings

  /** A header element. `hasAttrs` is false for headers that are not
      elements (raw strings and the like); `attrs` are its attributes. */
  datatype Header = Header(hasAttrs: bool, attrs: map<string, string>)

  /** A route of the app; only `Mount` routes are compared by path. */
  datatype Route = Mount(path: string) | OtherRoute(path: string)

  /** The app record: `hdrs` is absent on an object that is not an app,
      `cacheUrls` is present only once the PWA extension created it. */
  datatype App = App(
    hdrs: Option<seq<Header>>,
    routes: seq<Route>,
    cacheUrls: Option<seq<string>>,
    pwaEnabled: bool
  )

  datatype SetupError =
    | InvalidApp          // no `hdrs` attribute
    | BootstrapMissing    // no Bootstrap stylesheet among the headers
    | PwaNotEnabled       // `setup_community_pwa` before `add_pwa`

  const DefaultStaticUrl: string := "/community-static"

  /** The stylesheets every page needs, in injection order. */
  function AssetFiles(): seq<string> {
    ["community-base.css", "cards.css", "loaders.css", "navbars.css", "effects.css"]
  }

  /** The URL of a stylesheet under a static prefix. */
  function AssetUrl(base: string, file: string): string {
    base + "/css/" + file
  }

  /** The href of a header, if it is an element with an `href` attribute. */
  function Href(h: Header): Option<string> {
    if h.hasAttrs && "href" in h.attrs then Some(h.attrs["href"]) else None
  }

  function StylesheetLink(href: string): (h: Header)
    ensures Href(h) == Some(href)
  {
    Header(true, map["rel" := "stylesheet", "href" := href])
  }

  /** The stylesheet URLs for a static prefix, trailing slashes stripped. */
  function AssetHrefs(staticUrl: string): (r: seq<string>)
    ensures |r| == 5
    ensures forall i :: 0 <= i < 5 ==> r[i] == AssetUrl(Strings.RStripChar(staticUrl, '/'), AssetFiles()[i])
  {
    var base := Strings.RStripChar(staticUrl, '/');
    seq(5, i requires 0 <= i < 5 => AssetUrl(base, AssetFiles()[i]))
  }

  /** `get_community_assets`: five stylesheet links, in fixed order. */
  function GetCommunityAssets(staticUrl: string := DefaultStaticUrl): (r: seq<Header>)
    ensures |r| == 5
    ensures forall i :: 0 <= i < 5 ==> Href(r[i]) == Some(AssetUrl(Strings.RStripChar(staticUrl, '/'), AssetFiles()[i]))
  {
    var hrefs := AssetHrefs(staticUrl);
    seq(5, i requires 0 <= i < 5 => StylesheetLink(hrefs[i]))
  }

  /** The five asset URLs are pairwise distinct. */
  lemma AssetHrefsDistinct(staticUrl: string)
    ensures forall i, j :: 0 <= i < j < 5 ==> AssetHrefs(staticUrl)[i] != AssetHrefs(staticUrl)[j]
  {
    var base := Strings.RStripChar(staticUrl, '/');
    forall i, j | 0 <= i < j < 5 ensures AssetHrefs(staticUrl)[i] != AssetHrefs(staticUrl)[j] {
      var a := AssetFiles()[i];
      var b := AssetFiles()[j];
      assert AssetUrl(base, a)[|base + "/css/"|..] == a;
      assert AssetUrl(base, b)[|base + "/css/"|..] == b;
    }
  }

  /** Some header's href contains "bootstrap". */
  predicate BootstrapFound(hdrs: seq<Header>) {
    exists i :: 0 <= i < |hdrs| && Href(hdrs[i]).Some? && Strings.Contains(Href(hdrs[i]).value, "bootstrap")
  }

  /** The gate looks only at hrefs: it passes exactly when one of the
      headers' hrefs mentions Bootstrap. */
  lemma BootstrapFoundIffHref(hdrs: seq<Header>)
    ensures BootstrapFound(hdrs) <==> exists u :: u in CurrentHrefs(hdrs) && Strings.Contains(u, "bootstrap")
  {
    if BootstrapFound(hdrs) {
      var i :| 0 <= i < |hdrs| && Href(hdrs[i]).Some? && Strings.Contains(Href(hdrs[i]).value, "bootstrap");
      assert Href(hdrs[i]).value in CurrentHrefs(hdrs);
    }
    if exists u :: u in CurrentHrefs(hdrs) && Strings.Contains(u, "bootstrap") {
      var u :| u in CurrentHrefs(hdrs) && Strings.Contains(u, "bootstrap");
      var i :| 0 <= i < |hdrs| && Href(hdrs[i]) == Some(u);
    }
  }

  /** The hrefs of the current headers. */
  function CurrentHrefs(hdrs: seq<Header>): (r: set<string>)
    ensures forall i :: 0 <= i < |hdrs| && Href(hdrs[i]).Some? ==> Href(hdrs[i]).value in r
    ensures forall u :: u in r ==> exists i :: 0 <= i < |hdrs| && Href(hdrs[i]) == Some(u)
  {
    set i | 0 <= i < |hdrs| && Href(hdrs[i]).Some? :: Href(hdrs[i]).value
  }

  /** Some route is a `Mount` at `path`. */
  predicate HasMount(routes: seq<Route>, path: string) {
    exists i :: 0 <= i < |routes| && routes[i].Mount? && routes[i].path == path
  }

  /** The URLs of `urls` not in `present`, in order (duplicates within
      `urls` are kept, as the source compares against a set taken before
      appending). */
  function Absent(urls: seq<string>, present: set<string>): (r: seq<string>)
    ensures forall u :: u in r <==> u in urls && u !in present
    ensures |r| <= |urls|
    ensures (forall i :: 0 <= i < |urls| ==> urls[i] !in present) ==> r == urls
    decreases |urls|
  {
    if urls == [] then []
    else if urls[0] in present then Absent(urls[1..], present)
    else [urls[0]] + Absent(urls[1..], present)
  }

  /** Nothing is appended when every URL is already present. */
  lemma {:induction false} AbsentWhenAllPresent(urls: seq<string>, present: set<string>)
    requires forall i :: 0 <= i < |urls| ==> urls[i] in present
    ensures Absent(urls, present) == []
    decreases |urls|
  {
    if urls != [] {
      AbsentWhenAllPresent(urls[1..], present);
    }
  }

  function Links(hrefs: seq<string>): (r: seq<Header>)
    ensures |r| == |hrefs|
    ensures forall i :: 0 <= i < |hrefs| ==> Href(r[i]) == Some(hrefs[i])
  {
    seq(|hrefs|, i requires 0 <= i < |hrefs| => StylesheetLink(hrefs[i]))
  }

  /** The cache entries PWA mode appends: the five stylesheets under the
      prefix exactly as given, without stripping a trailing slash. */
  function PwaModeCacheUrls(staticUrl: string): (r: seq<string>)
    ensures |r| == 5
    ensures forall i :: 0 <= i < 5 ==> r[i] == AssetUrl(staticUrl, AssetFiles()[i])
  {
    seq(5, i requires 0 <= i < 5 => AssetUrl(staticUrl, AssetFiles()[i]))
  }

  /** The path a Starlette `Mount` stores for a prefix: the prefix with
      its trailing slashes stripped. It is the prefix itself exactly when
      the prefix does not end in a slash. */
  function MountPath(staticUrl: string): (p: string)
    ensures |p| > 0 ==> p[|p| - 1] != '/'
    ensures p == staticUrl <==> (|staticUrl| == 0 || staticUrl[|staticUrl| - 1] != '/')
  {
    Strings.RStripChar(staticUrl, '/')
  }

  /** The route list after mounting as written: the prefix is looked up
      among the stored paths, and when it is missing a `Mount` is inserted
      at the front, which stores the stripped path. */
  function MountStatic(routes: seq<Route>, staticUrl: string): (r: seq<Route>)
    ensures HasMount(routes, staticUrl) ==> r == routes
    ensures !HasMount(routes, staticUrl) ==> |r| == |routes| + 1 && r[0] == Mount(MountPath(staticUrl)) && r[1..] == routes
    ensures HasMount(r, MountPath(staticUrl)) || HasMount(routes, staticUrl)
    ensures MountPath(staticUrl) == staticUrl ==> HasMount(r, staticUrl)
  {
    if HasMount(routes, staticUrl) then routes else [Mount(MountPath(staticUrl))] + routes
  }

  /** The corrected mount: the stripped path is what is looked up, so the
      lookup compares like with like. */
  function MountStaticFixed(routes: seq<Route>, staticUrl: string): (r: seq<Route>)
    ensures HasMount(r, MountPath(staticUrl))
    ensures HasMount(routes, MountPath(staticUrl)) ==> r == routes
    ensures !HasMount(routes, MountPath(staticUrl)) ==> |r| == |routes| + 1 && r[1..] == routes
  {
    var path := MountPath(staticUrl);
    if HasMount(routes, path) then routes
    else
      var r := [Mount(path)] + routes;
      assert r[0].Mount? && r[0].path == path;
      r
  }

  /** The corrected mount adds a route at most once, whatever the prefix,
      and agrees with the written one on prefixes without a trailing slash. */
  lemma MountStaticFixedIdempotent(routes: seq<Route>, staticUrl: string)
    ensures MountStaticFixed(MountStaticFixed(routes, staticUrl), staticUrl) == MountStaticFixed(routes, staticUrl)
    ensures MountPath(staticUrl) == staticUrl ==> MountStaticFixed(routes, staticUrl) == MountStatic(routes, staticUrl)
  {
  }

  /** Steps 1 to 4 of `setup_community`: the two checks that raise, the
      static mount and the stylesheet injection; the cache list is untouched. */
  function MountAndInject(app: App, staticUrl: string): (r: Result<App, SetupError>)
    ensures app.hdrs.None? ==> r == Failure(InvalidApp)
    ensures app.hdrs.Some? && !BootstrapFound(app.hdrs.value) ==> r == Failure(BootstrapMissing)
    ensures r.Success? <==> app.hdrs.Some? && BootstrapFound(app.hdrs.value)
    ensures r.Success? ==> r.value.hdrs.Some? && app.hdrs.value <= r.value.hdrs.value
    ensures r.Success? ==> forall i :: 0 <= i < 5 ==> AssetHrefs(staticUrl)[i] in CurrentHrefs(r.value.hdrs.value)
    ensures r.Success? ==>
      r.value.hdrs.value[|app.hdrs.value|..] == Links(Absent(AssetHrefs(staticUrl), CurrentHrefs(app.hdrs.value)))
    ensures r.Success? ==> r.value.routes == MountStatic(app.routes, staticUrl)
    ensures r.Success? ==> r.value.pwaEnabled == app.pwaEnabled && r.value.cacheUrls == app.cacheUrls
  {
    if app.hdrs.None? then Failure(InvalidApp)
    else if !BootstrapFound(app.hdrs.value) then Failure(BootstrapMissing)
    else
      var hdrs := app.hdrs.value;
      var added := Absent(AssetHrefs(staticUrl), CurrentHrefs(hdrs));
      var hdrs' := hdrs + Links(added);
      assert hdrs'[|hdrs|..] == Links(added);
      assert forall i :: 0 <= i < 5 ==> AssetHrefs(staticUrl)[i] in CurrentHrefs(hdrs') by {
        forall i | 0 <= i < 5 ensures AssetHrefs(staticUrl)[i] in CurrentHrefs(hdrs') {
          var u := AssetHrefs(staticUrl)[i];
          if u !in CurrentHrefs(hdrs) {
            assert u in added;
            var k :| 0 <= k < |added| && added[k] == u;
            assert Href(hdrs'[|hdrs| + k]) == Some(u);
          } else {
            var k :| 0 <= k < |hdrs| && Href(hdrs[k]) == Some(u);
            assert hdrs'[k] == hdrs[k];
          }
        }
      }
      Success(app.(hdrs := Some(hdrs'), routes := MountStatic(app.routes, staticUrl)))
  }

  /** `setup_community` as written: in PWA mode, and only when the app has
      a cache list, the five URLs are appended without a duplicate check. */
  function SetupCommunity(app: App, staticUrl: string := DefaultStaticUrl, pwaMode: bool := false): (r: Result<App, SetupError>)
    ensures r.Success? <==> MountAndInject(app, staticUrl).Success?
    ensures r.Failure? ==> r == MountAndInject(app, staticUrl)
    ensures r.Success? ==> r.value.(cacheUrls := app.cacheUrls) == MountAndInject(app, staticUrl).value
    ensures r.Success? && !(pwaMode && app.cacheUrls.Some?) ==> r.value.cacheUrls == app.cacheUrls
    ensures r.Success? && pwaMode && app.cacheUrls.Some? ==>
      r.value.cacheUrls == Some(app.cacheUrls.value + PwaModeCacheUrls(staticUrl))
  {
    match MountAndInject(app, staticUrl)
    case Failure(e) => Failure(e)
    case Success(app1) =>
      if pwaMode && app.cacheUrls.Some? then
        Success(app1.(cacheUrls := Some(app.cacheUrls.value + PwaModeCacheUrls(staticUrl))))
      else Success(app1)
  }

  /** Called with only the app, setup mounts `/community-static`, links
      the stylesheets under it and leaves the cache list alone. */
  lemma SetupCommunityDefaults(app: App)
    ensures var r := SetupCommunity(app);
      r.Success? ==>
        && r.value.cacheUrls == app.cacheUrls
        && HasMount(r.value.routes, "/community-static")
        && "/community-static" + "/css/" + "community-base.css" in CurrentHrefs(r.value.hdrs.value)
  {
    assert MountPath(DefaultStaticUrl) == DefaultStaticUrl;
    assert AssetHrefs(DefaultStaticUrl)[0] == "/community-static" + "/css/" + "community-base.css";
  }

  /** A header list stays Bootstrap-enabled once something is appended. */
  lemma BootstrapFoundKept(hdrs: seq<Header>, more: seq<Header>)
    requires BootstrapFound(hdrs)
    ensures BootstrapFound(hdrs + more)
  {
    var i :| 0 <= i < |hdrs| && Href(hdrs[i]).Some? && Strings.Contains(Href(hdrs[i]).value, "bootstrap");
    assert (hdrs + more)[i] == hdrs[i];
  }

  /** After a successful call the headers still pass the gate and already
      hold every stylesheet. */
  lemma {:induction false} InjectedHeadersComplete(app: App, staticUrl: string)
    requires app.hdrs.Some? && BootstrapFound(app.hdrs.value)
    ensures var hdrs1 := MountAndInject(app, staticUrl).value.hdrs.value;
      BootstrapFound(hdrs1) && Absent(AssetHrefs(staticUrl), CurrentHrefs(hdrs1)) == []
  {
    var hdrs1 := MountAndInject(app, staticUrl).value.hdrs.value;
    BootstrapFoundKept(app.hdrs.value, hdrs1[|app.hdrs.value|..]);
    assert app.hdrs.value + hdrs1[|app.hdrs.value|..] == hdrs1;
    AbsentWhenAllPresent(AssetHrefs(staticUrl), CurrentHrefs(hdrs1));
  }

  /** With nothing to inject, the gate passes and the headers stay as they
      are. */
  lemma NothingToInject(app: App, staticUrl: string)
    requires app.hdrs.Some? && BootstrapFound(app.hdrs.value)
    requires Absent(AssetHrefs(staticUrl), CurrentHrefs(app.hdrs.value)) == []
    ensures MountAndInject(app, staticUrl).Success?
    ensures MountAndInject(app, staticUrl).value.hdrs == app.hdrs
  {
    assert app.hdrs.value + Links([]) == app.hdrs.value;
  }

  /** Once the gate has passed, any app carrying the resulting headers
      passes it again and gains no header: injection is idempotent,
      whatever the routes and the cache list. */
  lemma InjectIdempotent(app: App, other: App, staticUrl: string)
    requires app.hdrs.Some? && BootstrapFound(app.hdrs.value)
    requires other.hdrs == MountAndInject(app, staticUrl).value.hdrs
    ensures other.hdrs.Some? && BootstrapFound(other.hdrs.value)
    ensures MountAndInject(other, staticUrl).Success?
    ensures MountAndInject(other, staticUrl).value.hdrs == other.hdrs
  {
    InjectedHeadersComplete(app, staticUrl);
    NothingToInject(other, staticUrl);
  }

  /** A second call with the same prefix changes neither headers nor
      routes, provided the prefix has no trailing slash (with one, see
      `TrailingSlashRemounts`). */
  lemma {:induction false} MountAndInjectIdempotent(app: App, staticUrl: string)
    requires app.hdrs.Some? && BootstrapFound(app.hdrs.value)
    requires MountPath(staticUrl) == staticUrl
    ensures MountAndInject(MountAndInject(app, staticUrl).value, staticUrl) == MountAndInject(app, staticUrl)
  {
    var app1 := MountAndInject(app, staticUrl).value;
    InjectIdempotent(app, app1, staticUrl);
    assert Absent(AssetHrefs(staticUrl), CurrentHrefs(app1.hdrs.value)) == [] by {
      AbsentWhenAllPresent(AssetHrefs(staticUrl), CurrentHrefs(app1.hdrs.value));
    }
    SecondMountAndInject(app1, staticUrl);
  }

  /** The defect: a prefix with a trailing slash is stored stripped, so the
      lookup by the unstripped prefix never finds it and every call inserts
      another `Mount` at the front. */
  lemma {:induction false} TrailingSlashRemounts(app: App, staticUrl: string)
    requires app.hdrs.Some? && BootstrapFound(app.hdrs.value)
    requires MountPath(staticUrl) != staticUrl
    requires !HasMount(app.routes, staticUrl)
    ensures SetupCommunity(app, staticUrl).Success?
    ensures var app1 := SetupCommunity(app, staticUrl).value;
      && app1.routes == [Mount(MountPath(staticUrl))] + app.routes
      && SetupCommunity(app1, staticUrl).Success?
      && SetupCommunity(app1, staticUrl).value.routes == [Mount(MountPath(staticUrl))] + app1.routes
  {
    var app1 := MountAndInject(app, staticUrl).value;
    assert SetupCommunity(app, staticUrl).value == app1;
    InjectIdempotent(app, app1, staticUrl);
    MountStaticMisses(app.routes, staticUrl);
    assert SetupCommunity(app1, staticUrl).value == MountAndInject(app1, staticUrl).value;
  }

  /** The route a trailing-slash prefix mounts is not found by that prefix. */
  lemma MountStaticMisses(routes: seq<Route>, staticUrl: string)
    requires MountPath(staticUrl) != staticUrl
    requires !HasMount(routes, staticUrl)
    ensures !HasMount(MountStatic(routes, staticUrl), staticUrl)
  {
    var r := MountStatic(routes, staticUrl);
    assert r[0].path != staticUrl;
    assert forall i :: 1 <= i < |r| ==> r[i] == routes[i - 1];
  }

  /** On an app that already has Bootstrap, every stylesheet and the mount,
      mounting and injection return the app unchanged. */
  lemma SecondMountAndInject(app: App, staticUrl: string)
    requires app.hdrs.Some? && BootstrapFound(app.hdrs.value)
    requires Absent(AssetHrefs(staticUrl), CurrentHrefs(app.hdrs.value)) == []
    requires HasMount(app.routes, staticUrl)
    ensures MountAndInject(app, staticUrl) == Success(app)
  {
    var app2 := MountAndInject(app, staticUrl).value;
    assert app2.hdrs.value == app.hdrs.value + Links([]) == app.hdrs.value;
  }

  /** `setup_community` twice with the same prefix, one without a trailing
      slash: headers and routes are those of the first call, whatever the
      PWA flags. */
  lemma {:induction false} SetupIdempotent(app: App, staticUrl: string, pwaMode: bool, pwaMode2: bool)
    requires app.hdrs.Some? && BootstrapFound(app.hdrs.value)
    requires MountPath(staticUrl) == staticUrl
    ensures SetupCommunity(app, staticUrl, pwaMode).Success?
    ensures var app1 := SetupCommunity(app, staticUrl, pwaMode).value;
      && SetupCommunity(app1, staticUrl, pwaMode2).Success?
      && SetupCommunity(app1, staticUrl, pwaMode2).value.hdrs == app1.hdrs
      && SetupCommunity(app1, staticUrl, pwaMode2).value.routes == app1.routes
  {
    var app1 := SetupCommunity(app, staticUrl, pwaMode).value;
    var base := MountAndInject(app, staticUrl).value;
    MountAndInjectIdempotent(app, staticUrl);
    assert app1.(cacheUrls := base.cacheUrls) == base;
    MountAndInjectCacheIndependent(base, app1.cacheUrls, staticUrl);
  }

  /** Mounting and injection do not look at the cache list. */
  lemma MountAndInjectCacheIndependent(app: App, cache: Option<seq<string>>, staticUrl: string)
    requires app.hdrs.Some? && BootstrapFound(app.hdrs.value)
    ensures MountAndInject(app.(cacheUrls := cache), staticUrl).Success?
    ensures MountAndInject(app.(cacheUrls := cache), staticUrl).value ==
      MountAndInject(app, staticUrl).value.(cacheUrls := cache)
  {
  }

  /** PWA mode is not idempotent: every call appends the five cache URLs
      again, even when they are already in the list. */
  lemma {:induction false} PwaModeDuplicatesCacheUrls(app: App, staticUrl: string)
    requires app.hdrs.Some? && BootstrapFound(app.hdrs.value)
    requires app.cacheUrls.Some?
    ensures SetupCommunity(app, staticUrl, true).Success?
    ensures var app1 := SetupCommunity(app, staticUrl, true).value;
      var app2 := SetupCommunity(app1, staticUrl, true).value;
      && SetupCommunity(app1, staticUrl, true).Success?
      && |app2.cacheUrls.value| == |app.cacheUrls.value| + 10
      && app2.cacheUrls.value[|app.cacheUrls.value| + 5..] == app2.cacheUrls.value[|app.cacheUrls.value|..|app.cacheUrls.value| + 5]
  {
    var app1 := SetupCommunity(app, staticUrl, true).value;
    InjectIdempotent(app, app1, staticUrl);
  }

  /** On an app whose only Bootstrap-related state is the stylesheet header,
      setup adds exactly five headers and one route. */
  lemma {:induction false} FreshAppGainsFiveHeadersAndOneRoute(app: App, staticUrl: string)
    requires app.hdrs.Some? && BootstrapFound(app.hdrs.value)
    requires forall i :: 0 <= i < 5 ==> AssetHrefs(staticUrl)[i] !in CurrentHrefs(app.hdrs.value)
    requires !HasMount(app.routes, staticUrl)
    ensures SetupCommunity(app, staticUrl, false).Success?
    ensures |SetupCommunity(app, staticUrl, false).value.hdrs.value| == |app.hdrs.value| + 5
    ensures |SetupCommunity(app, staticUrl, false).value.routes| == |app.routes| + 1
  {
    var r := SetupCommunity(app, staticUrl, false).value;
    assert r.hdrs.value == app.hdrs.value + r.hdrs.value[|app.hdrs.value|..];
  }

  /** The cache extension with the membership check `setup_community_pwa`
      uses: append only the URLs not already in the list. */
  function ExtendCacheDedup(cache: Option<seq<string>>, urls: seq<string>): (r: Option<seq<string>>)
    ensures cache.None? ==> r.None?
    ensures cache.Some? ==> r.Some? && cache.value <= r.value
    ensures cache.Some? ==> forall u :: u in urls ==> u in r.value
    ensures cache.Some? && (forall u :: u in urls ==> u in cache.value) ==> r == cache
    ensures cache.Some? ==> r.value[|cache.value|..] == Absent(urls, set u | u in cache.value)
  {
    if cache.None? then None
    else
      var c := cache.value;
      var present := set u | u in c;
      assert forall u :: u in c ==> u in present;
      var added := Absent(urls, present);
      assert forall u :: u in urls && u !in present ==> u in added;
      if (forall u :: u in urls ==> u in c) then
        AbsentWhenAllPresent(urls, present);
        assert c + added == c;
        Some(c + added)
      else
        Some(c + added)
  }

  /** `setup_community` corrected twice: the mount is looked up by its
      stored path, and the cache list is extended with the membership
      check. */
  function SetupCommunityDedup(app: App, staticUrl: string, pwaMode: bool): (r: Result<App, SetupError>)
    ensures r.Success? <==> MountAndInject(app, staticUrl).Success?
    ensures r.Failure? ==> r == MountAndInject(app, staticUrl)
    ensures r.Success? ==> r.value.hdrs == MountAndInject(app, staticUrl).value.hdrs && r.value.pwaEnabled == app.pwaEnabled
    ensures r.Success? ==> r.value.routes == MountStaticFixed(app.routes, staticUrl)
    ensures r.Success? && pwaMode && app.cacheUrls.Some? ==>
      r.value.cacheUrls.Some? && app.cacheUrls.value <= r.value.cacheUrls.value &&
      forall i :: 0 <= i < 5 ==> PwaModeCacheUrls(staticUrl)[i] in r.value.cacheUrls.value
    ensures r.Success? && !pwaMode ==> r.value.cacheUrls == app.cacheUrls
    ensures r.Success? && app.cacheUrls.None? ==> r.value.cacheUrls.None?
    ensures r.Success? && pwaMode && app.cacheUrls.Some? ==>
      r.value.cacheUrls.value[|app.cacheUrls.value|..] == Absent(PwaModeCacheUrls(staticUrl), set u | u in app.cacheUrls.value)
  {
    match MountAndInject(app, staticUrl)
    case Failure(e) => Failure(e)
    case Success(app1) =>
      var mounted := app1.(routes := MountStaticFixed(app.routes, staticUrl));
      if pwaMode then Success(mounted.(cacheUrls := ExtendCacheDedup(app.cacheUrls, PwaModeCacheUrls(staticUrl))))
      else Success(mounted)
  }

  /** With both corrections, a second call leaves the whole app unchanged,
      routes and cache list included, whatever the prefix. */
  lemma {:induction false} SetupDedupIdempotent(app: App, staticUrl: string, pwaMode: bool)
    requires app.hdrs.Some? && BootstrapFound(app.hdrs.value)
    ensures SetupCommunityDedup(app, staticUrl, pwaMode).Success?
    ensures var app1 := SetupCommunityDedup(app, staticUrl, pwaMode).value;
      SetupCommunityDedup(app1, staticUrl, pwaMode) == Success(app1)
  {
    var app1 := SetupCommunityDedup(app, staticUrl, pwaMode).value;
    InjectIdempotent(app, app1, staticUrl);
    MountStaticFixedIdempotent(app.routes, staticUrl);
    if pwaMode {
      ExtendCacheDedupIdempotent(app.cacheUrls, PwaModeCacheUrls(staticUrl));
    }
  }

  /** Extending twice with the same URLs adds nothing the second time. */
  lemma ExtendCacheDedupIdempotent(cache: Option<seq<string>>, urls: seq<string>)
    ensures ExtendCacheDedup(ExtendCacheDedup(cache, urls), urls) == ExtendCacheDedup(cache, urls)
  {
  }
}
