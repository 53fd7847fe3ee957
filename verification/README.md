# Celestia catalog browser and settings list — a Dafny model

This project models two pieces of the Celestia Android client.

**The catalog browser tree.** It turns the engine's flat catalogs into a tree of browser items. A browser item is either a leaf wrapping one catalog object, or an interior node whose children are kept in one of two forms:
- an ordered list of (name, item) pairs, where order and duplicates are kept;
- a name-keyed map, where the last write wins.

The tree has three roots:
- the solar system root, which is the star "Sol";
- the "Stars" root, which merges the nearest, brighter and with-planets rankings for an observer, plus an optional cached "Brightest Stars (Absolute Magnitude)" branch;
- the "Deep Sky Objects" root. Each deep-sky object is classified by the first type prefix its type tag starts with, falling back to "Unknown". It is filed by name into that bucket. Each bucket then becomes a group named by its display label.

The four process-wide root caches become a `Caches` value that every accessor takes and returns.

**The common settings list adapter.** The model covers:
- the view type of each settings item;
- the holder kind created for each view type;
- what each holder shows for an item, including the slider clamp and the first-match option lookup;
- what selecting an item reports;
- `reload`, which flattens the settings sections and expands a lone dynamic-list row.

The engine is a parameter (`BrowserModel.Universe`). It supplies these functions:
- object lookup by name;
- canonical star names;
- the ranked star lists per observer;
- the deep-sky catalog and its naming service;
- string localisation.

The settings data source is a parameter too (`SettingsAdapter.DataSource`). It may be absent, and each of its answers may be absent.

Modules:
- `Wrappers`: `Option` and `Result`.
- `Collections`: a map built by inserting pairs in order.
- `BrowserModel`: the tree datatypes and the engine.
- `StarBrowserRoots`, `DsoBrowserRoots` and `BrowserCaches`: the browser builders and their caches.
- `SettingsAdapter`: the settings list.

`starBrowserRoot` ignores its observer once the cache is filled. Only `createDynamicBrowserItems` replaces the cached "Stars" root. `BrowserCaches.StarRootMemoised` and `BrowserCaches.DynamicRebuildReplacesStarRoot` state this behaviour.

## Model

| member | source | states |
|---|---|---|
| StarBrowserRoots.OrderedStarEntries | app/src/main/java/space/celestia/mobilecelestia/browser/BrowserUIItem.kt:64-71 | The ordered builder yields one pair per star, with the same length and order as the engine's list, so duplicate names are kept. Each pair carries the star's catalog name and a leaf for that star. |
| StarBrowserRoots.StarMap | app/src/main/java/space/celestia/mobilecelestia/browser/BrowserUIItem.kt:51-63 | The unordered builder's keys are exactly the names of the stars in the list. |
| StarBrowserRoots.StarMapIsLastWins | app/src/main/java/space/celestia/mobilecelestia/browser/BrowserUIItem.kt:51-71 | The unordered builder equals the ordered builder's list collapsed into a map by inserting the pairs in order. |
| StarBrowserRoots.StarMapLastWriteWins | app/src/main/java/space/celestia/mobilecelestia/browser/BrowserUIItem.kt:51-63 | Each name in the unordered map holds the leaf of the last star in the list with that name. No later star carries the name. |
| Collections.LastWins | app/src/main/java/space/celestia/mobilecelestia/browser/BrowserUIItem.kt:52-61 | A map filled by putting pairs in order has exactly the keys the pairs mention. `Collections.LastWinsKeepsLastValue` gives the value under each key. |
| Collections.LastWinsKeepsLastValue | app/src/main/java/space/celestia/mobilecelestia/browser/BrowserUIItem.kt:52-61 | In a map filled by putting pairs in order, every key holds the value of its last insertion. |
| StarBrowserRoots.CreateStarBrowserRootItem | app/src/main/java/space/celestia/mobilecelestia/browser/BrowserUIItem.kt:50-84 | A star branch is an interior node titled with the given title and without an alternative name. Its children are ordered exactly when `ordered` is set. Ordered children are the ordered builder's pairs for the engine's list for that kind and observer: pointwise its star names and star leaves. Unordered children are the unordered builder's map of that list, keyed by the set of the list's names. |
| StarBrowserRoots.CreateStarBrowserRoot | app/src/main/java/space/celestia/mobilecelestia/browser/BrowserUIItem.kt:86-99 | The "Stars" root is an unordered interior node named by the localised "Stars". Its keys are the three ranked branches' titles, plus the cached brightest branch's name when there is one. On a name collision, the later insertion wins. |
| DsoBrowserRoots.FindPrefix | app/src/main/java/space/celestia/mobilecelestia/browser/BrowserUIItem.kt:124 | A found prefix is one of the rules and is a prefix of the type tag. |
| DsoBrowserRoots.FindPrefixIsFirstMatch | app/src/main/java/space/celestia/mobilecelestia/browser/BrowserUIItem.kt:124 | Nothing is found exactly when no rule matches. Otherwise the rule found is the first matching one in list order. |
| DsoBrowserRoots.Classify | app/src/main/java/space/celestia/mobilecelestia/browser/BrowserUIItem.kt:124-126 | Classification is total: the bucket is one of the prefixes or "Unknown". |
| DsoBrowserRoots.ClassifyIsFirstMatch | app/src/main/java/space/celestia/mobilecelestia/browser/BrowserUIItem.kt:118-126 | The bucket is the first prefix in list order that the tag starts with. When no prefix matches, the bucket is exactly "Unknown". |
| DsoBrowserRoots.ClassifyBarredSpiral | app/src/main/java/space/celestia/mobilecelestia/browser/BrowserUIItem.kt:118-124 | Every tag starting with "SB" goes to "SB", never to "S". |
| DsoBrowserRoots.ClassifySpiral | app/src/main/java/space/celestia/mobilecelestia/browser/BrowserUIItem.kt:118-124 | Every tag starting with "S" but not with "SB" goes to "S". |
| DsoBrowserRoots.ClassifyUnmatched | app/src/main/java/space/celestia/mobilecelestia/browser/BrowserUIItem.kt:124-126 | Every tag that matches none of the shipped prefixes goes to "Unknown". |
| DsoBrowserRoots.ClassifyOverlapExample | app/src/main/java/space/celestia/mobilecelestia/browser/BrowserUIItem.kt:118-124 | The tags "SBc" and "Sc" go to "SB" and "S" respectively. |
| DsoBrowserRoots.ClassifyFallbackExample | app/src/main/java/space/celestia/mobilecelestia/browser/BrowserUIItem.kt:124-126 | The tag "PN" goes to "Unknown". |
| DsoBrowserRoots.DsoTypeMap | app/src/main/java/space/celestia/mobilecelestia/browser/BrowserUIItem.kt:108-118 | The label table has an entry for each of the seven prefixes and for "Unknown", and has eight entries. |
| DsoBrowserRoots.WellLocalizedLabelsDistinct | app/src/main/java/space/celestia/mobilecelestia/browser/BrowserUIItem.kt:108-117 | If localisation keeps the eight label texts apart, no two bucket keys of the table share a display label. |
| DsoBrowserRoots.Buckets | app/src/main/java/space/celestia/mobilecelestia/browser/BrowserUIItem.kt:120-136 | The buckets after filing the first n catalog entries. It has no contract of its own. `DsoBrowserRoots.BucketsGrow`, `DsoFiledInItsBucket`, `BucketItemIsLastWrite`, `BucketKeysStep`, `BucketExistsIffUsed` and `BucketsNonEmpty` state its behaviour. |
| DsoBrowserRoots.File | app/src/main/java/space/celestia/mobilecelestia/browser/BrowserUIItem.kt:128-135 | Files one catalog entry into its bucket, creating the bucket if needed. It has no contract of its own. `DsoBrowserRoots.FileSetsSlot`, `FileKeepsOtherSlots` and `BucketKeysStep` state its behaviour. |
| DsoBrowserRoots.BucketsGrow | app/src/main/java/space/celestia/mobilecelestia/browser/BrowserUIItem.kt:120-136 | Filing further catalog entries never removes a bucket, or a name from a bucket. |
| DsoBrowserRoots.DsoFiledInItsBucket | app/src/main/java/space/celestia/mobilecelestia/browser/BrowserUIItem.kt:122-136 | After filing, every catalog entry's name is a key of the bucket its type selects. |
| DsoBrowserRoots.FileSetsSlot | app/src/main/java/space/celestia/mobilecelestia/browser/BrowserUIItem.kt:128-135 | Filing an entry puts its leaf under its name in its bucket, whether the bucket existed or was created. |
| DsoBrowserRoots.FileKeepsOtherSlots | app/src/main/java/space/celestia/mobilecelestia/browser/BrowserUIItem.kt:132-135 | Filing an entry changes no other (bucket, name) slot. |
| DsoBrowserRoots.BucketItemIsLastWrite | app/src/main/java/space/celestia/mobilecelestia/browser/BrowserUIItem.kt:122-136 | Each item in a bucket is the leaf of the last catalog entry classified into that bucket under that name. A later entry with the same name overwrites an earlier one. |
| DsoBrowserRoots.BucketKeysStep | app/src/main/java/space/celestia/mobilecelestia/browser/BrowserUIItem.kt:132-135 | Filing an entry adds its bucket key and no other. |
| DsoBrowserRoots.BucketExistsIffUsed | app/src/main/java/space/celestia/mobilecelestia/browser/BrowserUIItem.kt:120-136 | A bucket exists exactly when some catalog entry was classified into it. |
| DsoBrowserRoots.BucketsNonEmpty | app/src/main/java/space/celestia/mobilecelestia/browser/BrowserUIItem.kt:132-135 | No bucket is created empty. |
| DsoBrowserRoots.BucketKeysBounded | app/src/main/java/space/celestia/mobilecelestia/browser/BrowserUIItem.kt:118-126 | Every bucket key is one of the prefixes or "Unknown". |
| DsoBrowserRoots.LabelGroups | app/src/main/java/space/celestia/mobilecelestia/browser/BrowserUIItem.kt:138-146 | Grouping fails exactly when some bucket key has no label, and the error names exactly the bucket keys that have no label. On success, each bucket appears under its label as an unordered interior node of that bucket's items. Every group comes from some bucket. |
| DsoBrowserRoots.LabelGroupsCount | app/src/main/java/space/celestia/mobilecelestia/browser/BrowserUIItem.kt:138-146 | There is one group per bucket, so the number of groups is at most the number of labels. |
| DsoBrowserRoots.GroupingSucceeds | app/src/main/java/space/celestia/mobilecelestia/browser/BrowserUIItem.kt:107-140 | When the label table covers every prefix and "Unknown", the missing-label error cannot occur. |
| DsoBrowserRoots.GroupDsos | app/src/main/java/space/celestia/mobilecelestia/browser/BrowserUIItem.kt:138-146 | Grouping the whole catalog succeeds exactly when every catalog entry's bucket has a label. `LabelGroups`, `GroupCount`, `GroupsNonEmpty` and `ListedUnderItsLabel` give the groups. |
| DsoBrowserRoots.CatalogGroupingSucceedsIff | app/src/main/java/space/celestia/mobilecelestia/browser/BrowserUIItem.kt:120-146 | Grouping the catalog's buckets succeeds exactly when every catalog entry's bucket has a label. |
| DsoBrowserRoots.UnlabelledBucketFails | app/src/main/java/space/celestia/mobilecelestia/browser/BrowserUIItem.kt:140 | If a catalog entry's bucket has no label, grouping fails rather than dropping the bucket. |
| DsoBrowserRoots.GroupCount | app/src/main/java/space/celestia/mobilecelestia/browser/BrowserUIItem.kt:120-146 | The root has one child per non-empty bucket, and no more children than labels. |
| DsoBrowserRoots.GroupsNonEmpty | app/src/main/java/space/celestia/mobilecelestia/browser/BrowserUIItem.kt:120-146 | Every group is a non-empty, name-keyed interior node named by its label. |
| DsoBrowserRoots.ListedUnderItsLabel | app/src/main/java/space/celestia/mobilecelestia/browser/BrowserUIItem.kt:122-146 | Every catalog entry's name is listed in the group labelled with the bucket its type selects. |
| DsoBrowserRoots.ShippedGrouping | app/src/main/java/space/celestia/mobilecelestia/browser/BrowserUIItem.kt:107-146 | With the shipped tables, labels are distinct, grouping succeeds, and there are at most eight groups. |
| DsoBrowserRoots.CreateDsoBrowserRoot | app/src/main/java/space/celestia/mobilecelestia/browser/BrowserUIItem.kt:107-154 | With the shipped tables, the deep-sky root is always built. It is an unordered interior node named "Deep Sky Objects" with alternative name "DSOs". Its children are exactly the groups of the catalog under the shipped prefix and label tables, and there are at most eight of them. |
| BrowserCaches.CreateSolBrowserRoot | app/src/main/java/space/celestia/mobilecelestia/browser/BrowserUIItem.kt:35-42 | The solar system root exists exactly when the engine resolves "Sol". It is then a leaf for that star, named by the star's catalog name and with alternative name "Solar System". |
| BrowserCaches.SolBrowserRoot | app/src/main/java/space/celestia/mobilecelestia/browser/BrowserUIItem.kt:44-48 | The accessor returns what the cache then holds and touches no other cache. A filled cache is returned unchanged. From an empty cache, the cache is filled with the solar-system builder's result, which is present exactly when "Sol" resolves. |
| BrowserCaches.SolLookupRetried | app/src/main/java/space/celestia/mobilecelestia/browser/BrowserUIItem.kt:35-48 | A failed "Sol" lookup is not cached: the caches stay as they were. A later call against an engine that resolves "Sol" finds it. |
| BrowserCaches.StarBrowserRoot | app/src/main/java/space/celestia/mobilecelestia/browser/BrowserUIItem.kt:101-105 | The "Stars" root is built from the observer only while its cache is empty. Otherwise the cached root is returned and no cache changes. |
| BrowserCaches.StarRootMemoised | app/src/main/java/space/celestia/mobilecelestia/browser/BrowserUIItem.kt:101-105 | A second access returns the same root and changes nothing, whatever observer it passes. |
| BrowserCaches.DsoBrowserRoot | app/src/main/java/space/celestia/mobilecelestia/browser/BrowserUIItem.kt:156-160 | The deep-sky root is built only while its cache is empty, and the cache then holds the deep-sky builder's root. Otherwise the cached root is returned unchanged. |
| BrowserCaches.DsoRootMemoised | app/src/main/java/space/celestia/mobilecelestia/browser/BrowserUIItem.kt:156-160 | A second access returns the same deep-sky root and changes nothing. |
| BrowserCaches.CreateStaticBrowserItems | app/src/main/java/space/celestia/mobilecelestia/browser/BrowserUIItem.kt:22-29 | Only empty caches among the solar system, deep-sky and brightest caches are filled. Each is filled with its builder's result: the solar-system root, the deep-sky root, and the brightest branch for the observer with the absolute-magnitude title. Filled caches and the "Stars" cache stay unchanged. |
| BrowserCaches.FirstStaticBuild | app/src/main/java/space/celestia/mobilecelestia/browser/BrowserUIItem.kt:22-29 | The first static build at process start fills the solar-system, deep-sky and brightest caches from their builders and leaves the "Stars" cache empty. |
| BrowserCaches.StaticItemsIdempotent | app/src/main/java/space/celestia/mobilecelestia/browser/BrowserUIItem.kt:22-29 | Building the static items twice gives the same caches as building them once. |
| BrowserCaches.CreateDynamicBrowserItems | app/src/main/java/space/celestia/mobilecelestia/browser/BrowserUIItem.kt:31-33 | The "Stars" cache is always replaced, even when filled, by the "Stars" root built for the given observer. That root contains the cached brightest branch. Every other cache stays unchanged. |
| BrowserCaches.DynamicRebuildReplacesStarRoot | app/src/main/java/space/celestia/mobilecelestia/browser/BrowserUIItem.kt:31-33 | After a dynamic rebuild for a new observer, the accessor returns the root built for that observer, not the one cached before. |
| SettingsAdapter.ViewTypeCodesDistinct | app/src/main/java/space/celestia/mobilecelestia/settings/SettingsCommonRecyclerViewAdapter.kt:250-257 | The eight view-type codes are pairwise distinct and lie in 0..7. |
| SettingsAdapter.ItemViewType | app/src/main/java/space/celestia/mobilecelestia/settings/SettingsCommonRecyclerViewAdapter.kt:38-61 | An item gets its own code exactly when it is one of the seven known kinds, and that code is in 0..7. A switch item gets the switch code exactly when drawn as a switch, and the checkmark code exactly when drawn as a checkmark. |
| SettingsAdapter.ViewTypeDeterminesKind | app/src/main/java/space/celestia/mobilecelestia/settings/SettingsCommonRecyclerViewAdapter.kt:38-61 | Two items with the same own view type are of the same kind. Two switch items share a view type only when they share their representation. |
| SettingsAdapter.CreateVH | app/src/main/java/space/celestia/mobilecelestia/settings/SettingsCommonRecyclerViewAdapter.kt:137-158 | Action, unknown-text and preference-selection codes, and only those, get the text holder. Preference-switch and switch codes, and only those, get the switch holder. Codes outside 0..7 go to the base adapter. |
| SettingsAdapter.BindVH | app/src/main/java/space/celestia/mobilecelestia/settings/SettingsCommonRecyclerViewAdapter.kt:76-135 | Binding an item to a holder shows the following. A slider shows its name, its range, and the data source's value (0.0 without one) clamped into that range. Action and unknown-text rows show their name and leave the detail as it was. A radio list shows every option's label in order, with the checked index at the first option matching the selection, or -1. A preference selection shows the label of the first matching option, or "" when nothing matches. Switches and checkmarks show the data source's state, with the item's default, or false for a switch item. A text or switch holder with an item it has no case for is left untouched. Every other mismatch goes to the base adapter. |
| SettingsAdapter.CreatedHolderBindsItem | app/src/main/java/space/celestia/mobilecelestia/settings/SettingsCommonRecyclerViewAdapter.kt:76-158 | The holder created for an item's own view type always binds that item. It never falls through to the base adapter and is never left untouched. |
| SettingsAdapter.Clamp | app/src/main/java/space/celestia/mobilecelestia/settings/SettingsCommonRecyclerViewAdapter.kt:185 | When min <= max, the slider value lies in [min, max], and equals v when v is already in range. It is min below the range and max above it. When max < min, it is min. |
| SettingsAdapter.ClampIdempotent | app/src/main/java/space/celestia/mobilecelestia/settings/SettingsCommonRecyclerViewAdapter.kt:185 | Clamping an already clamped value changes nothing. |
| SettingsAdapter.IndexOfFirst | app/src/main/java/space/celestia/mobilecelestia/settings/SettingsCommonRecyclerViewAdapter.kt:88 | The checked index is -1 exactly when no option has the selected key. Otherwise it is the first option with that key. |
| SettingsAdapter.FirstLabel | app/src/main/java/space/celestia/mobilecelestia/settings/SettingsCommonRecyclerViewAdapter.kt:105 | The first-match label search finds nothing exactly when no option has the selected key. Otherwise it finds the label of an option with that key. |
| SettingsAdapter.FirstLabelAtIndexOfFirst | app/src/main/java/space/celestia/mobilecelestia/settings/SettingsCommonRecyclerViewAdapter.kt:88-105 | The label found by the first-match search is the label at the checked index. Neither finds anything when nothing matches. |
| SettingsAdapter.DetailText | app/src/main/java/space/celestia/mobilecelestia/settings/SettingsCommonRecyclerViewAdapter.kt:105 | The detail text is the label of the first option whose key is the selection, or "" when no option matches. |
| SettingsAdapter.OnItemSelected | app/src/main/java/space/celestia/mobilecelestia/settings/SettingsCommonRecyclerViewAdapter.kt:63-74 | Only action, unknown-text, preference-selection and checkmark items report anything. An action reports its action, and an unknown-text item reports its id. A preference selection requests a selection with its key and options. A checkmark reports its key, the negation of the current state (false without a data source), and its volatile flag. A switch drawn as a switch reports nothing on a tap. |
| SettingsAdapter.CheckmarkToggleTwice | app/src/main/java/space/celestia/mobilecelestia/settings/SettingsCommonRecyclerViewAdapter.kt:68-70 | If the data source records the reported state, a second tap reports the original state again. |
| SettingsAdapter.CopyRows | app/src/main/java/space/celestia/mobilecelestia/settings/SettingsCommonRecyclerViewAdapter.kt:237-242 | Copying rows succeeds exactly when no row is a dynamic list item, and then it returns the rows unchanged and in order. |
| SettingsAdapter.ReloadSection | app/src/main/java/space/celestia/mobilecelestia/settings/SettingsCommonRecyclerViewAdapter.kt:232-244 | A section is accepted exactly when it is a lone dynamic-list row or contains no dynamic-list row. Header and footer are kept. A lone dynamic list is replaced by its created rows. Other rows are copied unchanged. |
| SettingsAdapter.Reload | app/src/main/java/space/celestia/mobilecelestia/settings/SettingsCommonRecyclerViewAdapter.kt:229-247 | Reload succeeds exactly when every section is accepted. It then gives one output section per input section, in order, with the same header and footer. A lone dynamic list is expanded, and every other section's rows are copied unchanged. |

## Left out

- Engine calls (`findObject`, `getStarBrowser(...).use`, `getStarName`, `getDSO`, `getDSOName`) are native. They are function-valued fields of `BrowserModel.Universe`. Star and observer handles are identities only. A deep-sky object handle also carries its `type` tag, which the classifier reads.
- `CelestiaString` is the `localize` field of the engine. Its translator-comment argument is dropped: in BrowserUIItem.kt each text is localised with a single fixed comment, so `localize(text)` stands for that call.
- HashMap iteration order is not modelled. Unordered children are Dafny maps.
- DsoBrowserRoots.LabelGroups: requires that no two bucket keys share a display label. When two buckets do share one, the Kotlin loop keeps whichever group the HashMap iterates last, which is unspecified. The builders that use the shipped table require only that localisation keeps the eight label texts apart (`DsoBrowserRoots.WellLocalized`).
- DsoBrowserRoots.LabelGroups: the error carries exactly the bucket keys that lack a label (its contract states this set). The Kotlin `error(...)` names the first such key met in HashMap order, and is an exception rather than a returned value.
- DsoBrowserRoots.CreateDsoBrowserRoot: requires the distinct-labels assumption above. Its children equal `GroupDsos` with the shipped tables, and the `DsoBrowserRoots` lemmas about `GroupDsos` state their contents.
- BrowserCaches.DsoBrowserRoot: requires the distinct-labels assumption above.
- BrowserCaches.CreateStaticBrowserItems: requires the distinct-labels assumption above.
- Mutable globals are not modelled. The four file-level caches are one `Caches` value passed in and returned, with no concurrency.
- `BrowserUIItem` (the presentation wrapper with an `isLeaf` flag) has no behaviour, and is not part of this model.
- The settings item classes are disjoint constructors of `SettingsAdapter.SettingsItem`. The class hierarchy behind the Kotlin type tests is not part of this model, so the order of the tests in `itemViewType` cannot matter here.
- The base adapter's own `itemViewType`, `createVH` and `bindVH` are not part of this model. They appear as `Inherited`, `BaseHolder` and `BaseBinding`.
- The widget side of the settings adapter is left out. This covers view inflation, `WeakReference` callbacks, the listener being absent, Material widget state, and the detail view's visibility. `OnItemSelected` gives the event a listener would receive.
- SettingsAdapter.Clamp: works over `real`. The conversions to `Float` and NaN handling are not modelled.
- `updateSectionsWithHeader` is not part of this model. `Reload` returns the sections it would be given, and throwing `RuntimeException` becomes a `Failure`.
- The dynamic list's `createItems()` is its `created` field.
- `CelestiaFragment.kt` (GL surface and fragment lifecycle) and `AsyncListAdapter.kt` (image loading) are not part of this model.
