# faststrap-community in Dafny

A model of the core of faststrap-community, a library of presentational
components (cards, loaders, buttons, navbars, form widgets, scroll effects)
for FastHTML applications built on Faststrap. It covers:

- **the community defaults table** (`defaults.py`). This is a process-wide
  map from component name to an option map, with `get`, `set`, `reset` and
  `list`. The inner option maps are shared objects, so the model keeps them
  in a heap of references (`CommunityDefaults.State`). That is how it
  captures what the shallow `dict.copy()` of the built-in table shares and
  what it does not.
- **the three-tier precedence** every component uses. A set explicit
  argument wins. Otherwise the table entry wins, if the key is present,
  even when its value is falsy. Otherwise the hard-coded fallback is used.
  For components that read a configuration already resolved by the core
  library, the rule has two tiers: the configured value when it is truthy,
  else the literal.
- **the setup/mount gate** (`setup_community`, `get_community_assets`). It
  rejects an object that is not an app and an app without Bootstrap. It
  mounts the static route once and appends only the stylesheet links that
  are missing. In PWA mode it extends the cache list.
- **the PWA integration** (`get_community_cache_urls`,
  `setup_community_pwa`) and **the component registry** (`registry.py`).
- **the 21 component constructors**, as functions from their arguments
  (and, where they read it, the defaults table or the resolved
  configuration) to a markup tree (`Markup.Node`).

Python values are modelled as follows:

- Values stored in option maps are `Values.Value`, with Python truthiness
  and `str()`.
- A `str` parameter that defaults to `None` is `Option<string>`. It counts
  as set when it is a non-empty string.
- The caller's `cls` keyword argument is `userCls`, the empty string
  when absent. The caller's `style` is `userStyle` for the components that
  take it out of `**kwargs` and merge it into their own style: `FlipCard`,
  `GlowCard`, `RevealCard`, `RingLoader`, `GradientButton`,
  `FloatingActionButton`, `VerticalMegaMenu`, `ParallaxSection` and
  `ScrollReveal`.
- An element's class attribute is kept as its list of fragments.
- `None` children are left out of `children`, as the markup library drops
  them.

The files:

| file | module | contents |
|---|---|---|
| `wrappers.dfy` | `Wrappers` | `Option`, `Result` |
| `strings.dfy` | `Strings` | `strip`, `rstrip`, `split`, `join`, integer `str()` |
| `values.dfy` | `Values` | option values, truthiness, the precedence rules |
| `dicts.dfy` | `Dicts` | insertion-ordered dictionaries |
| `markup.dfy` | `Markup` | the markup tree and class merging |
| `defaults.dfy` | `CommunityDefaults` | the defaults table |
| `registry.dfy` | `Registry` | the component registry |
| `setup.dfy` | `Setup` | assets and `setup_community` |
| `pwa.dfy` | `Pwa` | the PWA cache integration |
| `cards.dfy` | `Cards` | seven cards |
| `loaders.dfy` | `Loaders` | five loaders |
| `buttons.dfy` | `Buttons` | three buttons |
| `navbars.dfy` | `Navbars` | vertical mega menu, slide menu |
| `forms.dfy` | `Forms` | tag input, animated input |
| `effects.dfy` | `Effects` | parallax section, scroll reveal |

Where the code disagrees with its own docstrings and tests, the model
follows the code:

- `reset_community_defaults` takes a shallow copy of the built-in table.
  It therefore does not undo a `set` on a built-in name, although its
  docstring (`defaults.py:64-67`) and `tests/test_defaults.py:39-45`
  expect the original values back.
- `setup_community` in PWA mode appends the cache URLs with no membership
  check. The same function checks the headers before appending them
  (`__init__.py:121-127`), and `setup_community_pwa` checks the cache list
  (`pwa.py:66-71`).
- `setup_community` looks the static mount up by the prefix as given, but
  Starlette's `Mount` stores the prefix without trailing slashes. A prefix
  ending in `/` is therefore mounted again on every call, while
  `tests/test_setup.py:41-53` and `tests/test_integration.py:16-21` expect
  a repeated call to add nothing (they count headers only).
- `DotsLoader` gives its dots no class at all: a variant other than
  `primary` becomes an inline `background-color` (`dots.py:24-29`), and
  `primary` gives plain dots. `tests/test_components.py:166-185` expect
  `bg-success`, `bg-primary`, `bg-danger` and `bg-warning` in the markup,
  while `tests/test_loaders.py:6-10` expect the inline colour. The two
  test files contradict each other, and the model follows the code and
  the second file (`Loaders.DotsLoader`).

The first three are listed under Findings, each with a corrected
definition beside the as-written one. The fourth is not: the code and one
of its test files agree, so there is no evident intent to correct.

## Model

| member | source | states |
|---|---|---|
| Values.Resolve | src/faststrap_community/cards/glow_card.py:29-31 | `explicit or table.get(key, hard)`: a set explicit value wins; otherwise the table entry when the key is present, even if falsy; otherwise the fallback |
| Values.ResolveCfg | src/faststrap_community/cards/flip_card.py:29-31 | `cfg.get(key) or literal`: the configured value when it is truthy; otherwise the literal, including when the key is absent |
| Values.PrecedenceOrder | src/faststrap_community/cards/glow_card.py:30-31 | an explicit non-empty value beats the table entry; an empty or absent explicit value falls through to the table; without both, the fallback |
| Markup.MergeClassesMembers | src/faststrap_community/cards/pricing_card.py:53-55 | the merged class fragments are exactly the non-empty given ones (a conditional `""` fragment disappears) |
| Markup.ClassesWith | src/faststrap_community/cards/flip_card.py:38 | the component's fixed classes come first, then the caller's class only when it is non-empty |
| Markup.ClassesWith2 | src/faststrap_community/cards/pricing_card.py:53-55 | two optional fragments after the fixed classes each appear exactly when non-empty, in order |
| Strings.JoinStyle | src/faststrap_community/cards/flip_card.py:45 | `f"{base} {user}".strip()`: the component style always leads; a blank caller style leaves it alone; otherwise the caller style follows after one space |
| Strings.RStripChar | src/faststrap_community/__init__.py:58 | `rstrip("/")` keeps a prefix of the input, removes only trailing slashes, and leaves no trailing slash |
| Strings.SplitJoin | src/faststrap_community/forms/tag_input.py:49 | joining tags with commas and splitting the result at commas gives the tags back, provided none contains a comma |
| CommunityDefaults.BuiltinTableKeys | src/faststrap_community/defaults.py:10-22 | the built-in table holds exactly the eleven built-in component names |
| CommunityDefaults.BuiltinHeapAt | src/faststrap_community/defaults.py:10-22 | each built-in name has its own built-in option-map object, holding that name's options |
| CommunityDefaults.NotBuiltinIsEmpty | src/faststrap_community/defaults.py:10-22 | a name outside the built-in table has no built-in options |
| CommunityDefaults.InitWf | src/faststrap_community/defaults.py:25 | the import-time table is well formed, and every built-in name's live entry IS the built-in object (the shallow copy) |
| CommunityDefaults.InitGet | src/faststrap_community/defaults.py:10-25 | at import time every name reads as its built-in options, and any other name reads as empty |
| CommunityDefaults.Get | src/faststrap_community/defaults.py:49-58 | a name missing from the table reads as the empty map, never an error |
| CommunityDefaults.List | src/faststrap_community/defaults.py:73-79 | on a well-formed table, exactly the live names, each once |
| CommunityDefaults.Set | src/faststrap_community/defaults.py:28-46 | after `set`, the entry reads as the old options updated with the new ones; the built-in table is not rebound |
| CommunityDefaults.SetKeepsWf | src/faststrap_community/defaults.py:44-46 | `set` keeps the table's invariant: key order, fresh references, entries named for their key |
| CommunityDefaults.SetExistingKeepsWf | src/faststrap_community/defaults.py:44-46 | updating an already listed name replaces its object's contents in place and keeps the invariant |
| CommunityDefaults.SetNewKeepsWf | src/faststrap_community/defaults.py:44-46 | a name not yet listed gets a freshly allocated object of its own, appended to the key order, and the invariant still holds |
| CommunityDefaults.AllocKeepsFresh | src/faststrap_community/defaults.py:44-45 | the object created for a new name is newer than every existing one |
| CommunityDefaults.PutFreshKeepsNamed | src/faststrap_community/defaults.py:44-45 | after a new name is pointed at its fresh object, every live entry still points at an allocated object made for its own name |
| CommunityDefaults.SetKeepsOthers | src/faststrap_community/defaults.py:44-46 | a new name is appended at the end of `list`, an existing one keeps its place, and every other name's options are unchanged |
| CommunityDefaults.SetThenGet | src/faststrap_community/defaults.py:46 | every given option reads back, and every other option of the entry is kept (`update` semantics) |
| CommunityDefaults.SetReadsBack | src/faststrap_community/defaults.py:46 | a single option written by `set` reads back from `get` |
| CommunityDefaults.Reset | src/faststrap_community/defaults.py:61-70 | after `reset`, `list` is the built-in order, and each name reads as whatever its built-in object now holds |
| CommunityDefaults.ResetKeepsWf | src/faststrap_community/defaults.py:69-70 | `reset` keeps the invariant, restores the built-in names in order, and re-establishes the sharing with the built-in objects |
| CommunityDefaults.ResetDropsAddedNames | src/faststrap_community/defaults.py:61-70 | a name that is not built in is dropped by `reset` and reads as empty afterwards |
| CommunityDefaults.SetKeepsAliased | src/faststrap_community/defaults.py:44-46 | while the tables share objects, `set` on a built-in name writes through to the built-in object itself |
| CommunityDefaults.ResetKeepsWrittenValue | src/faststrap_community/defaults.py:61-70 | the defect: after `set` on a built-in name, `reset` brings back the value `set` wrote |
| CommunityDefaults.ResetDoesNotRestoreFlipCard | src/faststrap_community/defaults.py:61-70 | FlipCard's height is 300px at import; after setting 999px and resetting, it is still 999px |
| CommunityDefaults.ResetDeep | src/faststrap_community/defaults.py:61-70 | the corrected `reset` lists the built-in names and reads each as its built-in object's contents, through fresh copies |
| CommunityDefaults.ResetDeepKeepsWf | src/faststrap_community/defaults.py:61-70 | the corrected `reset` keeps the invariant |
| CommunityDefaults.ResetDeepIsolates | src/faststrap_community/defaults.py:61-70 | the corrected `reset` never points the live table at a built-in object |
| CommunityDefaults.InitDeep | src/faststrap_community/defaults.py:25 | the corrected import-time table is well formed and isolated, lists the built-in names, and reads each as its built-in options |
| CommunityDefaults.SetKeepsIsolated | src/faststrap_community/defaults.py:44-46 | on an isolated table, `set` never touches a built-in object |
| CommunityDefaults.WriteKeepsIntact | src/faststrap_community/defaults.py:46 | updating an object that is not built in leaves every built-in object holding its built-in options |
| CommunityDefaults.ResetDeepRestoresBuiltins | src/faststrap_community/defaults.py:61-70 | the promise of `reset`, with the corrected definitions: whatever was set, every name reads as its built-in options again |
| CommunityDefaults.ResetDeepRestoresFlipCard | src/faststrap_community/defaults.py:64-67 | the documented scenario holds with the corrected definitions: after setting FlipCard's height and resetting, FlipCard reads as at import |
| Registry.Empty | src/faststrap_community/registry.py:5 | the registry starts valid and empty |
| Registry.RegisterComponent | src/faststrap_community/registry.py:8-10 | the name then maps to the component and other names are unaffected; a new name is appended to the list, a re-registered one keeps its place |
| Registry.GetComponent | src/faststrap_community/registry.py:18-20 | `None` exactly for a name that was never registered |
| Registry.ListComponents | src/faststrap_community/registry.py:13-15 | on a well-formed registry, exactly the registered names, each once |
| Registry.RegisterAllLists | src/faststrap_community/registry.py:13-15 | after any sequence of registrations, the list is the earlier names, then each new name once, in first-registration order |
| Registry.RegisterAllLastWins | src/faststrap_community/registry.py:8-10 | after any sequence of registrations, each name maps to the component of its last registration |
| Registry.RegisterAllKeeps | src/faststrap_community/registry.py:8-10 | registrations of other names leave a name's entry alone |
| Setup.AssetHrefs | src/faststrap_community/__init__.py:56-65 | five stylesheet URLs under the prefix with trailing slashes stripped, in fixed order |
| Setup.GetCommunityAssets | src/faststrap_community/__init__.py:56-65 | five stylesheet links whose hrefs are those URLs, in order |
| Setup.AssetHrefsDistinct | src/faststrap_community/__init__.py:59-65 | the five asset URLs are pairwise distinct |
| Setup.BootstrapFoundIffHref | src/faststrap_community/__init__.py:89-94 | the Bootstrap check passes exactly when some header's href contains `bootstrap` |
| Setup.CurrentHrefs | src/faststrap_community/__init__.py:121-123 | exactly the hrefs of the headers that are elements with an `href` |
| Setup.Absent | src/faststrap_community/__init__.py:125-127 | the URLs appended are exactly those not already present, in order |
| Setup.AbsentWhenAllPresent | src/faststrap_community/__init__.py:125-127 | nothing is appended when every URL is present |
| Setup.MountStatic | src/faststrap_community/__init__.py:113-117 | the prefix is looked up among the stored mount paths; when it is missing, a `Mount` storing the prefix without trailing slashes goes to the front; for a prefix without a trailing slash a mount at it exists afterwards |
| Setup.MountStaticFixed | src/faststrap_community/__init__.py:113-117 | the corrected mount looks up the stripped path: a mount at that path exists afterwards, and none is added when one already does |
| Setup.MountStaticFixedIdempotent | src/faststrap_community/__init__.py:113-117 | the corrected mount adds a route at most once for any prefix, and agrees with the written one on prefixes without a trailing slash |
| Setup.MountAndInject | src/faststrap_community/__init__.py:82-127 | fails with InvalidApp without `hdrs`, with BootstrapMissing without a Bootstrap href, and succeeds otherwise; on success it keeps the old headers as a prefix, appends only the missing links, leaves every asset present, mounts once, and keeps the cache list |
| Setup.SetupCommunity | src/faststrap_community/__init__.py:68-140 | as written: fails exactly as the gate does; in PWA mode with a cache list it appends the five unstripped URLs unconditionally; otherwise the cache list is kept |
| Setup.SetupCommunityDefaults | src/faststrap_community/__init__.py:68 | called with only the app, a successful setup mounts `/community-static`, links `/community-static/css/community-base.css` and leaves the cache list alone |
| Setup.BootstrapFoundKept | src/faststrap_community/__init__.py:90-94 | appending headers never hides an existing Bootstrap stylesheet |
| Setup.MountAndInjectIdempotent | src/faststrap_community/__init__.py:113-127 | on an app that has Bootstrap, a second mount-and-inject with the same prefix, one without a trailing slash, returns the app unchanged |
| Setup.InjectedHeadersComplete | src/faststrap_community/__init__.py:119-127 | after a successful call the headers still pass the Bootstrap check and hold every stylesheet |
| Setup.NothingToInject | src/faststrap_community/__init__.py:119-127 | with every stylesheet present, the gate passes and the headers are kept as they are |
| Setup.InjectIdempotent | src/faststrap_community/__init__.py:119-127 | any app carrying the headers of a successful call passes the gate again and gains no header, whatever its routes and cache list |
| Setup.TrailingSlashRemounts | src/faststrap_community/__init__.py:113-117 | the defect: with a prefix ending in `/`, the first and the second call each insert a new `Mount` at the front |
| Setup.MountStaticMisses | src/faststrap_community/__init__.py:113-114 | the route a trailing-slash prefix mounts is not found when that prefix is looked up |
| Setup.SecondMountAndInject | src/faststrap_community/__init__.py:113-127 | on an app that already has Bootstrap, every asset and the mount, mount-and-inject changes nothing |
| Setup.SetupIdempotent | src/faststrap_community/__init__.py:68-140 | on an app that has Bootstrap, both calls of `setup_community` with a prefix without a trailing slash succeed, and the second leaves headers and routes as the first left them, whatever the PWA flags |
| Setup.MountAndInjectCacheIndependent | src/faststrap_community/__init__.py:82-127 | steps 1 to 4 never look at or change the cache list |
| Setup.PwaModeCacheUrls | src/faststrap_community/__init__.py:131-137 | the five URLs appended in PWA mode use the prefix as given, without stripping |
| Setup.PwaModeDuplicatesCacheUrls | src/faststrap_community/__init__.py:130-138 | the defect: on an app with Bootstrap and a cache list, two PWA-mode calls both succeed and append the same five URLs twice, ten entries in all |
| Setup.FreshAppGainsFiveHeadersAndOneRoute | src/faststrap_community/__init__.py:113-127 | an app with Bootstrap but none of the assets and no mount gains exactly five headers and one route |
| Setup.ExtendCacheDedup | src/faststrap_community/__init__.py:130-138 | the corrected extension: the old list stays a prefix followed by exactly the URLs it lacked, in order, so every URL ends up present and nothing changes when all are present |
| Setup.SetupCommunityDedup | src/faststrap_community/__init__.py:68-140 | the corrected `setup_community`: the same gate and headers; the mount looked up by its stored path; in PWA mode a cache list gains exactly the five URLs it lacked, in order, and an app without one still has none |
| Setup.SetupDedupIdempotent | src/faststrap_community/__init__.py:113-138 | with both corrections, setup on an app with Bootstrap succeeds and a second call leaves the whole app unchanged, routes and cache list included, whatever the prefix |
| Setup.ExtendCacheDedupIdempotent | src/faststrap_community/__init__.py:130-138 | with the corrected extension, extending a second time with the same URLs adds nothing |
| Pwa.GetCommunityCacheUrls | src/faststrap_community/pwa.py:6-29 | seven URLs under the stripped prefix: the five page stylesheets, then forms and buttons |
| Pwa.CacheUrlsExtendAssets | src/faststrap_community/pwa.py:20-26 | the first five cache URLs are exactly the hrefs `get_community_assets` links for the same prefix |
| Pwa.SetupCommunityPwa | src/faststrap_community/pwa.py:32-73 | raises exactly when PWA is not enabled; without a cache list nothing changes; otherwise the old list stays a prefix, the missing URLs are appended in order, and all seven are present |
| Pwa.SetupCommunityPwaIdempotent | src/faststrap_community/pwa.py:66-71 | a second call with the same prefix changes nothing |
| Cards.FlipBaseStyle | src/faststrap_community/cards/flip_card.py:41-43 | the size comes first; the duration variable is added exactly when the duration is not 0.6s |
| Cards.FlipCard | src/faststrap_community/cards/flip_card.py:12-59 | the container classes and style, with the caller's style after the component's, and an inner wrapper holding the front face, then the back face |
| Cards.FlipCardDefaults | src/faststrap_community/cards/flip_card.py:29-45 | with nothing configured the style is 300px by 100% and has no duration variable |
| Cards.GlowStyle | src/faststrap_community/cards/glow_card.py:38 | the glow colour declaration has no surrounding whitespace, so the strip in the component never cuts it |
| Cards.GlowCard | src/faststrap_community/cards/glow_card.py:12-40 | colour and intensity follow the three-tier rule over the `GlowCard` entry; the children are passed through unchanged |
| Cards.GlowCardFollowsTable | src/faststrap_community/cards/glow_card.py:29-36 | an intensity stored with `set` reaches a later glow card that passes none |
| Cards.FeatureList | src/faststrap_community/cards/pricing_card.py:62-64 | one row per feature, in order, each ending with its feature |
| Cards.CtaVariant | src/faststrap_community/cards/pricing_card.py:58-59 | the caller's variant unless it is `None`; otherwise `primary` exactly when highlighted, else `outline-primary`; the button has no variant exactly when the caller passes an empty one |
| Cards.PricingHeader | src/faststrap_community/cards/pricing_card.py:66-79 | the badge leads exactly when the card is highlighted; then the title; then the price with its period |
| Cards.PricingBody | src/faststrap_community/cards/pricing_card.py:71-83 | the header, then the feature list only when there are features, then the button with the chosen variant |
| Cards.PricingCard | src/faststrap_community/cards/pricing_card.py:10-86 | the primary border class is present exactly when highlighted, or when the caller passes it |
| Cards.PricingCardFalsyArguments | src/faststrap_community/cards/pricing_card.py:58-80 | an empty feature list renders as no list at all, while an empty variant is kept for the button |
| Cards.PricingCardDefaults | src/faststrap_community/cards/pricing_card.py:10-19 | given only a title and a price: no badge and no border, the price shown `/ month`, no feature list, and a `Get Started` outline button to `#` |
| Cards.TrendBadge | src/faststrap_community/cards/stat_card.py:53-58 | the badge text is an arrow and a space followed by the trend itself; the arrow points up, and the class holds `text-success` rather than `text-danger`, exactly when the trend is positive |
| Cards.TrendBadgeDirection | src/faststrap_community/cards/stat_card.py:53-58 | a rising and a falling badge for the same trend show the same trend text and are different badges |
| Cards.StatRow | src/faststrap_community/cards/stat_card.py:64 | the value, then the trend badge exactly when a trend is given |
| Cards.StatCard | src/faststrap_community/cards/stat_card.py:10-69 | the icon only when given, tinted with the three-tier variant; then the title; then the value row |
| Cards.StatCardTrendDefaultsRising | src/faststrap_community/cards/stat_card.py:14 | a trend given without a direction is shown rising, with the up arrow and the green class |
| Cards.StatCardExplicitVariantWins | src/faststrap_community/cards/stat_card.py:41 | with an explicit variant, the card is the same whatever the defaults table holds |
| Cards.RevealHeightStyle | src/faststrap_community/cards/reveal_card.py:31-37 | the height declaration, configured value else 300px |
| Cards.RevealOverlay | src/faststrap_community/cards/reveal_card.py:39-45 | the title, then the description only when non-empty, then the button only when given |
| Cards.RevealCard | src/faststrap_community/cards/reveal_card.py:12-48 | the image, then the overlay; the caller's style follows the height |
| Cards.RevealCardDefaults | src/faststrap_community/cards/reveal_card.py:30-45 | with nothing configured the card is 300px high, and the overlay holds only the title |
| Cards.TimelineBody | src/faststrap_community/cards/timeline_card.py:52-65 | the title with the timestamp only when given, then the description only when given |
| Cards.TimelineBadge | src/faststrap_community/cards/timeline_card.py:44-50 | the icon badge's class names `bg-{variant}` and its only content is the icon |
| Cards.TimelineBadgeInjective | src/faststrap_community/cards/timeline_card.py:44-50 | two equal badges have the same variant and the same icon: the badge shows both |
| Cards.TimelineCard | src/faststrap_community/cards/timeline_card.py:10-69 | the badge only when an icon is given, coloured with the three-tier variant; then the body |
| Cards.TimelineCardWithoutIconIgnoresTable | src/faststrap_community/cards/timeline_card.py:37-50 | without an icon, the card does not depend on the defaults table |
| Cards.TimelineCardFollowsTable | src/faststrap_community/cards/timeline_card.py:37-49 | a variant stored with `set` colours the badge of a later card that passes none |
| Cards.ProfileBody | src/faststrap_community/cards/profile_card.py:41-63 | the avatar (placeholder when none is given), the name, then the title, bio and actions, each only when given |
| Cards.ProfileCard | src/faststrap_community/cards/profile_card.py:12-66 | the profile body in a centred card with the caller's class last |
| Cards.ProfileCardEmptyIsAbsent | src/faststrap_community/cards/profile_card.py:42-53 | an empty title, avatar or bio renders exactly as an absent one |
| Loaders.LineCount | src/faststrap_community/loaders/skeleton.py:23 | a non-zero explicit count wins; otherwise the table's `lines` (a boolean counts as 0 or 1, another non-integer has no count); otherwise 3 |
| Loaders.SkeletonLines | src/faststrap_community/loaders/skeleton.py:36-39 | `range(n)` lines: all full width but the last, which is 60%; none for a non-positive count |
| Loaders.SkeletonLoader | src/faststrap_community/loaders/skeleton.py:10-41 | fails with `TypeError` when the caller passes a `style`; otherwise fails exactly when the count is not an integer; on success the avatar when asked for, then the lines, with the three-tier width |
| Loaders.SkeletonZeroFallsThrough | src/faststrap_community/loaders/skeleton.py:23 | an explicit count of 0 behaves exactly as no count |
| Loaders.SkeletonLineCount | src/faststrap_community/loaders/skeleton.py:29-39 | a positive count n gives exactly n lines after the optional avatar, the last one at 60% |
| Loaders.SkeletonFollowsTable | src/faststrap_community/loaders/skeleton.py:22-23 | a count stored with `set` is used when the caller gives none |
| Loaders.DotsLoader | src/faststrap_community/loaders/dots.py:10-31 | three childless dots without classes, each carrying an inline colour exactly when the variant is not `primary` |
| Loaders.DotsLoaderPrimaryIsPlain | src/faststrap_community/loaders/dots.py:18-29 | a configured `primary` and an empty variant both give the unconfigured dots |
| Loaders.RingSegment | src/faststrap_community/loaders/ring.py:33-36 | a segment overrides its border colour exactly when the variant is not `primary` |
| Loaders.RingLoader | src/faststrap_community/loaders/ring.py:10-38 | four identical segments; the size sets width and height, with the caller's style after it |
| Loaders.RingLoaderDefaults | src/faststrap_community/loaders/ring.py:18-36 | without size or variant the ring is 64px square, with plain segments |
| Loaders.PulseLoader | src/faststrap_community/loaders/pulse.py:10-31 | the size class and the circle's colour follow the three-tier rule over the `PulseLoader` entry |
| Loaders.PulseLoaderFallbacks | src/faststrap_community/loaders/pulse.py:21-29 | without a table entry the pulse is medium and primary |
| Loaders.WaveBar | src/faststrap_community/loaders/wave.py:28 | a bar's style starts with its colour and ends with its delay |
| Loaders.WaveLoader | src/faststrap_community/loaders/wave.py:10-32 | five bars in the three-tier variant colour, delayed 0.0s, 0.1s, 0.30000000000000004s... as Python formats `i * 0.1` |
| Loaders.WaveLoaderFollowsTable | src/faststrap_community/loaders/wave.py:20-28 | a variant stored with `set` colours every bar of a later loader that passes none |
| Buttons.PositionStyle | src/faststrap_community/buttons/floating_action_button.py:30-37 | a named corner's offsets; bottom-right's for any other value |
| Buttons.PositionStyleNamedCorners | src/faststrap_community/buttons/floating_action_button.py:30-37 | of the four named corners only bottom-right gets the default offsets, and the four placements are pairwise distinct |
| Buttons.FabBaseStyle | src/faststrap_community/buttons/floating_action_button.py:44-50 | the fixed-position style has no surrounding whitespace, so the strip in the component never cuts it |
| Buttons.FloatingActionButton | src/faststrap_community/buttons/floating_action_button.py:11-52 | variant and position follow the three-tier rule; the icon is the only child; the caller's style follows the placement |
| Buttons.FabDefaultPositionIgnoresTable | src/faststrap_community/buttons/floating_action_button.py:11-27 | with the default position argument the placement is bottom-right, whatever the table holds |
| Buttons.FabFalsyPositionReadsTable | src/faststrap_community/buttons/floating_action_button.py:25-27 | a falsy position lets a position stored with `set` take effect |
| Buttons.PresetsAreGradients | src/faststrap_community/buttons/gradient_button.py:26-32 | every preset is a `linear-gradient(...)`, and no preset name is its own gradient |
| Buttons.GradientCustomPassesThrough | src/faststrap_community/buttons/gradient_button.py:34 | a string is used verbatim as the background exactly when it names no preset |
| Buttons.SizeClass | src/faststrap_community/buttons/gradient_button.py:39 | `btn-{size}` exactly when a size is given, else nothing |
| Buttons.GradientBaseStyle | src/faststrap_community/buttons/gradient_button.py:42 | the style starts with the resolved background and has no surrounding whitespace |
| Buttons.GradientButton | src/faststrap_community/buttons/gradient_button.py:10-44 | the size class is present exactly when a size is given; the gradient follows the three-tier rule; the text is the only child |
| Buttons.GradientButtonFollowsTable | src/faststrap_community/buttons/gradient_button.py:22-34 | a gradient set in the table, preset name or custom CSS, styles every later button that passes none |
| Buttons.IconButton | src/faststrap_community/buttons/icon_button.py:11-50 | the icon before the text for `left`, after it otherwise, and alone without text; the margin faces the text |
| Buttons.IconButtonIconFirstByDefault | src/faststrap_community/buttons/icon_button.py:16 | without a position, the icon comes before the text, with its margin towards the text |
| Buttons.IconButtonPositionSwaps | src/faststrap_community/buttons/icon_button.py:40-48 | switching the position swaps the icon and the text and changes nothing else |
| Navbars.MenuLink | src/faststrap_community/navbars/vertical_mega.py:21-35 | the link points at `href` (default `#`), is `active` exactly when the entry is, and shows an icon exactly when one is named |
| Navbars.RenderItem | src/faststrap_community/navbars/vertical_mega.py:12-42 | a list item with the link, then the rendered children as a nested list, or an empty string when there are none |
| Navbars.RenderAll | src/faststrap_community/navbars/vertical_mega.py:65 | one rendered item per entry, in order |
| Navbars.LinkHoldsNoItems | src/faststrap_community/navbars/vertical_mega.py:21-35 | a menu link contains no list item |
| Navbars.RenderItemCount | src/faststrap_community/navbars/vertical_mega.py:38-42 | every entry of a menu tree, at any depth, becomes exactly one list item |
| Navbars.RenderAllCount | src/faststrap_community/navbars/vertical_mega.py:65 | a forest of entries becomes as many list items as it has entries |
| Navbars.VerticalMegaMenu | src/faststrap_community/navbars/vertical_mega.py:45-67 | one top-level item per entry, in order, as many list items as entries overall, and the width style followed by the caller's, not stripped |
| Navbars.VerticalMegaMenuDefaultWidth | src/faststrap_community/navbars/vertical_mega.py:45 | without a width, the menu's style starts `width: 250px;` |
| Navbars.EmptyItemDefaults | src/faststrap_community/navbars/vertical_mega.py:14-19 | an entry without keys renders as an inactive link to `#` with an empty label, no icon, no subtitle and no submenu |
| Navbars.SlideListItemRoundTrip | src/faststrap_community/navbars/slide_menu.py:30-35 | a `(label, href)` entry reads back from its list item as the same pair; any other element is wrapped unchanged |
| Navbars.SlideListItemInjective | src/faststrap_community/navbars/slide_menu.py:30-35 | two entries give the same list item only when they are equal, or when one is an element that is exactly the other's link |
| Navbars.SlideMenuNavbar | src/faststrap_community/navbars/slide_menu.py:9-45 | the overlay with id `{mid}-overlay`, then the menu with id `mid`, holding the brand only when given and one list item per entry |
| Navbars.ToggleScript | src/faststrap_community/navbars/slide_menu.py:51 | the script addresses the target id and the target id plus `-overlay` |
| Navbars.SlideToggler | src/faststrap_community/navbars/slide_menu.py:48-53 | an "Open Menu" button whose click runs the toggle script |
| Navbars.TogglerTargetsMenu | src/faststrap_community/navbars/slide_menu.py:18-53 | a toggler aimed at a slide menu's id addresses both the menu panel and its overlay |
| Forms.TagBadges | src/faststrap_community/forms/tag_input.py:33-43 | one badge per tag, in order, showing the tag and carrying it in `data-tag` |
| Forms.TagInputFieldNames | src/faststrap_community/forms/tag_input.py:46-49 | the visible field is a text field named after the input, the hidden one is named `{name}_tags`, so the two never collide |
| Forms.HiddenTags | src/faststrap_community/forms/tag_input.py:49 | the hidden field `{name}_tags` holds the tags joined with commas |
| Forms.TagInput | src/faststrap_community/forms/tag_input.py:10-107 | badges (none without tags), then the text field, the hidden field and the script, with the caller's class last |
| Forms.TagInputDefaults | src/faststrap_community/forms/tag_input.py:10 | given only a name: no badges, the `Add tag...` prompt, an empty hidden value and no extra class |
| Forms.TagInputHiddenRoundTrip | src/faststrap_community/forms/tag_input.py:49 | for non-empty tags without commas, splitting the hidden value at commas gives the tags back |
| Forms.TagWithCommaSplits | src/faststrap_community/forms/tag_input.py:49 | a tag holding a comma comes back from the hidden value as two tags |
| Forms.AnimatedInput | src/faststrap_community/forms/animated_input.py:10-58 | the field id is the caller's id else `input-{name}`; the label's `for` is that id; the placeholder falls back to the label; `value` and `required` are present exactly when given |
| Forms.AnimatedInputDefaults | src/faststrap_community/forms/animated_input.py:10-18 | given only a label and a name: a text field prompting with the label, with id `input-{name}`, no value and not required |
| Effects.Opacity | src/faststrap_community/effects/parallax.py:26 | the configured opacity unless it is `None`, so 0 is kept; else 0.5 |
| Effects.ParallaxBaseStyle | src/faststrap_community/effects/parallax.py:34 | the image and height declaration has no surrounding whitespace |
| Effects.ParallaxSection | src/faststrap_community/effects/parallax.py:12-44 | the content inside the darkening overlay; the caller's style follows the image and the height |
| Effects.ParallaxKeepsZeroOpacity | src/faststrap_community/effects/parallax.py:26 | a configured opacity of 0 is kept, not replaced by 0.5 |
| Effects.ParallaxDefaultOpacity | src/faststrap_community/effects/parallax.py:26 | a missing opacity becomes 0.5 |
| Effects.RevealBaseStyle | src/faststrap_community/effects/scroll_reveal.py:35-39 | the delay and duration declarations have no surrounding whitespace |
| Effects.ScrollReveal | src/faststrap_community/effects/scroll_reveal.py:12-65 | the content, then the script; the direction (configured value, else `up`) is the class after `fs-comm-reveal`; the caller's style follows the delay and duration |
| Effects.ScrollRevealDefaults | src/faststrap_community/effects/scroll_reveal.py:24-39 | with nothing configured: direction `up`, delay 0s, duration 0.6s |

## Left out

- The static-files directory check in `setup_community` (`FileNotFoundError`) is left out: it depends on the installed package on disk. The model assumes the directory exists.
- The Starlette `StaticFiles` application behind the mount is left out. Of Starlette's `Mount`, the model keeps the path it stores: the prefix with trailing slashes stripped (`Setup.MountPath`).
- Starlette's check that a mount path is empty or starts with `/` is left out: Starlette is not part of this model, and a prefix failing it would raise before anything is mounted.
- Setup.MountAndInjectIdempotent: holds only for a prefix without a trailing slash. With one, every call mounts again (`Setup.TrailingSlashRemounts`, under Findings).
- Setup.SetupIdempotent: holds only for a prefix without a trailing slash, for the same reason. The corrected `Setup.SetupDedupIdempotent` holds for every prefix.
- The `hasattr` checks on `_faststrap_pwa_cache_urls` and `_faststrap_pwa_enabled` become an `Option` cache list and a boolean. Attribute creation by other code is not modelled.
- `merge_classes`, `resolve_defaults`, `Button` and `Icon` of the core library are not part of this model.
  - `merge_classes` is taken to keep the non-empty fragments in order.
  - The configuration `resolve_defaults` returns is an input (`cfg`).
  - `Button` and `Icon` become opaque elements carrying their arguments.
- Rendering to HTML, escaping, and the attribute filtering of the markup library are left out. Attributes the source passes as `None` or `False` are left out of `attrs`; `required=True` is kept as the text `True`.
- The client-side scripts of `TagInput` and `ScrollReveal`, and the CSS files, are opaque (`Script`). Their behaviour runs in the browser.
- Keyword arguments other than `cls`, the merged `style` and `AnimatedInput`'s `id` are left out. The components pass them unchanged to their outer element, except `TagInput` and `AnimatedInput`, which pass them, `style` included, to their text field (`forms/tag_input.py:46`, `forms/animated_input.py:44-53`). The other components that do not merge a caller `style` (`IconButton`, `PricingCard`, `StatCard`, `ProfileCard`, `DotsLoader`, `PulseLoader`, `WaveLoader`, `SlideMenuNavbar`) pass it to their outer element with the rest.
- TimelineCard: a caller `style` raises `TypeError`, because the card passes its own fixed `style=` beside `**kwargs` (`cards/timeline_card.py:67-68`). The model takes no caller style, so this error path is not modelled. `Loaders.SkeletonLoader` does model the same collision (`loaders/skeleton.py:41`): it takes `userStyle` and fails with `TypeError` when one is given.
- Python tuple unpacking errors in `SlideMenuNavbar` (a tuple entry that is not a pair) are left out. Entries are pairs or elements by type.
- Part of the whitespace `str.strip` removes is left out: the separators U+001C to U+001F and non-ASCII whitespace. `Strings.IsSpace` covers space, tab, newline, carriage return, vertical tab and form feed.
- The truthiness of `RevealCard`'s `button` element is left out. The button is present exactly when it is given.
- No modelled component reads a built-in table entry. The components that have one (`FlipCard`, `RevealCard`, `DotsLoader`, `RingLoader`, `ScrollReveal`, `ParallaxSection`, `SlideMenuNavbar`) resolve their options through the core library's `resolve_defaults`, not through this table. The model keeps the entries and the components' actual inputs separate, as the source does.
- `PricingCard`, `ProfileCard`, `TagInput` and `AnimatedInput` read their table entry and discard it, so their models take no table.
- `TiltCard`, `SearchBar`, `MegaMenuNavbar`, `MorphingToggler`, `ProgressRing` and the text and geometric loaders are outside the modelled core. So are the module-level `register_component` calls and the showcase application.
- Concurrency is left out: the table and the registry are process-wide and unsynchronised in the source, and the model treats each call as atomic.
- Markup.MergeClasses: its own contract bounds only the length. Membership is stated by `Markup.MergeClassesMembers`, and order after fixed fragments by `Markup.ClassesWith` and `Markup.ClassesWith2`.
- Forms.TagBadges: states each badge's tag text and `data-tag`, not the classes of the close button inside it.
- Cards.FeatureList: states each row's feature text, not the tick icon's markup.
- Loaders.SkeletonFollowsTable: states the number of children only; their shapes follow from `Loaders.SkeletonLoader`.
- Loaders.WaveBar: states how the style starts and ends, not the exact joint between colour and delay.
- Buttons.GradientBaseStyle: states that the style starts with the background, not the fixed border and colour declarations after it.
- Loaders.LineCount: a float or string count makes `range()` raise `TypeError`. The model returns no count, and `Loaders.SkeletonLoader` fails with `TypeError`; the message text is left out.

## Findings

| source | as written | input that shows it | evidently intended | confidence | as-written member | corrected member |
|---|---|---|---|---|---|---|
| src/faststrap_community/defaults.py:25 | the live table is `dict.copy()` of the built-in table, and `reset` takes another `dict.copy()`; both are shallow, so each built-in name's options object is shared with the built-in table | `set_community_defaults("FlipCard", height="999px")`, then `reset_community_defaults()`: FlipCard's height is still 999px | `reset` restores the built-in options (its docstring: "FlipCard now uses original default (300px)") | not executed | CommunityDefaults.ResetDoesNotRestoreFlipCard | CommunityDefaults.ResetDeepRestoresFlipCard |
| src/faststrap_community/__init__.py:130-138 | in PWA mode the five cache URLs are appended with `extend`, without checking what the list holds | `setup_community(app, pwa_mode=True)` twice on an app with a cache list: the five URLs appear twice | setup is idempotent, and the cache list gets the same duplicate check as the headers | not executed | Setup.PwaModeDuplicatesCacheUrls | Setup.SetupDedupIdempotent |
| src/faststrap_community/__init__.py:113-117 | the mount is looked up by `static_url` as given, while Starlette's `Mount` stores the path with trailing slashes stripped | `setup_community(app, static_url="/community-static/")` twice: each call inserts another `Mount` at the front of the routes | a second call adds no route, so the lookup uses the stored form of the path | not executed; relies on Starlette's `Mount` stripping trailing slashes, which is outside this model | Setup.TrailingSlashRemounts | Setup.SetupDedupIdempotent |
