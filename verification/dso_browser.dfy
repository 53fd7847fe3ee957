/** The "Deep Sky Objects" root: every deep-sky object is classified by the
    first matching type prefix and filed, by name, into that bucket. */
module DsoBrowserRoots {
  import opened Wrappers
  import opened Collections
  import opened BrowserModel

  /** Prefix rules, most specific first: "SB" must precede "S". */
  const DsoPrefixes: seq<string> := ["SB", "S", "E", "Irr", "Neb", "Glob", "Open cluster"]

  /** The bucket of an object whose type matches no prefix. */
  const UnknownBucket: string := "Unknown"

  /** Rule `k` is the first rule whose prefix starts `tag`. */
  predicate IsFirstMatch(tag: string, prefixes: seq<string>, k: int)
  {
    && 0 <= k < |prefixes|
    && prefixes[k] <= tag
    && forall j :: 0 <= j < k ==> !(prefixes[j] <= tag)
  }

  /** The first prefix, in list order, that `tag` starts with (Kotlin's `find`). */
  function FindPrefix(tag: string, prefixes: seq<string>): (r: Option<string>)
    ensures r.Some? ==> r.value in prefixes && r.value <= tag
    decreases |prefixes|
  {
    if |prefixes| == 0 then None
    else if prefixes[0] <= tag then Some(prefixes[0])
    else FindPrefix(tag, prefixes[1..])
  }

  /** `FindPrefix` finds a rule exactly when one matches, and then it finds
      the first matching one in list order. */
  lemma {:induction false} FindPrefixIsFirstMatch(tag: string, prefixes: seq<string>)
    ensures FindPrefix(tag, prefixes).None? <==> forall k :: 0 <= k < |prefixes| ==> !(prefixes[k] <= tag)
    ensures FindPrefix(tag, prefixes).Some? ==>
              exists k :: IsFirstMatch(tag, prefixes, k) && prefixes[k] == FindPrefix(tag, prefixes).value
    decreases |prefixes|
  {
    if |prefixes| > 0 {
      if prefixes[0] <= tag {
        assert IsFirstMatch(tag, prefixes, 0);
      } else {
        var rest := prefixes[1..];
        FindPrefixIsFirstMatch(tag, rest);
        assert forall k :: 1 <= k < |prefixes| ==> prefixes[k] == rest[k - 1];
        if FindPrefix(tag, rest).Some? {
          var k :| IsFirstMatch(tag, rest, k) && rest[k] == FindPrefix(tag, rest).value;
          assert IsFirstMatch(tag, prefixes, k + 1);
        }
      }
    }
  }

  /** The bucket key of a type tag: the first matching prefix, else "Unknown".
      Total over all type strings. */
  function Classify(tag: string, prefixes: seq<string>): (r: string)
    ensures r == UnknownBucket || r in prefixes
  {
    FindPrefix(tag, prefixes).GetOr(UnknownBucket)
  }

  /** The bucket is the first prefix in list order that the tag starts with;
      when no prefix matches it is exactly "Unknown". */
  lemma ClassifyIsFirstMatch(tag: string, prefixes: seq<string>)
    ensures (exists k :: IsFirstMatch(tag, prefixes, k) && prefixes[k] == Classify(tag, prefixes))
            || (Classify(tag, prefixes) == UnknownBucket && forall k :: 0 <= k < |prefixes| ==> !(prefixes[k] <= tag))
  {
    FindPrefixIsFirstMatch(tag, prefixes);
  }

  /** The bucket keys of the label table, in table order, and the texts their
      labels are localised from. */
  const DsoBucketKeys: seq<string> := DsoPrefixes + [UnknownBucket]
  const DsoLabelTexts: seq<string> :=
    ["Galaxies (Barred Spiral)", "Galaxies (Spiral)", "Galaxies (Elliptical)", "Galaxies (Irregular)",
     "Nebulae", "Globulars", "Open Clusters", "Unknown"]

  /** Bucket key to display label, as localised. */
  function DsoTypeMap(localize: string -> string): (r: map<string, string>)
    ensures forall k :: k in DsoPrefixes ==> k in r
    ensures UnknownBucket in r
    ensures forall k :: k in r ==> k in DsoBucketKeys
    ensures |r| == |DsoPrefixes| + 1
  {
    var r := map[
      "SB" := localize("Galaxies (Barred Spiral)"),
      "S" := localize("Galaxies (Spiral)"),
      "E" := localize("Galaxies (Elliptical)"),
      "Irr" := localize("Galaxies (Irregular)"),
      "Neb" := localize("Nebulae"),
      "Glob" := localize("Globulars"),
      "Open cluster" := localize("Open Clusters"),
      "Unknown" := localize("Unknown")
    ];
    assert r.Keys == {"SB", "S", "E", "Irr", "Neb", "Glob", "Open cluster", "Unknown"};
    ShippedKeys(r);
    r
  }

  /** A table keyed by exactly the eight shipped bucket keys has an entry for
      every prefix and for "Unknown", nothing else, and eight entries. */
  lemma ShippedKeys(r: map<string, string>)
    requires r.Keys == {"SB", "S", "E", "Irr", "Neb", "Glob", "Open cluster", "Unknown"}
    ensures forall k :: k in DsoPrefixes ==> k in r
    ensures UnknownBucket in r
    ensures forall k :: k in r ==> k in DsoBucketKeys
    ensures |r| == |DsoPrefixes| + 1
  {
    ShippedKeyCount(r);
  }

  lemma ShippedKeyCount(r: map<string, string>)
    requires r.Keys == {"SB", "S", "E", "Irr", "Neb", "Glob", "Open cluster", "Unknown"}
    ensures |r| == 8
  {
    assert |r| == |r.Keys|;
  }

  /** No two bucket keys share a display label. */
  ghost predicate LabelsDistinct(typeMap: map<string, string>)
  {
    forall a, b :: SameLabel(typeMap, a, b) ==> a == b
  }

  /** Bucket keys `a` and `b` both have the same label. */
  predicate SameLabel(typeMap: map<string, string>, a: string, b: string)
  {
    a in typeMap && b in typeMap && typeMap[a] == typeMap[b]
  }

  /** The localisation keeps the eight shipped labels apart. */
  predicate WellLocalized(u: Universe)
  {
    forall i, j :: 0 <= i < j < |DsoLabelTexts| ==> u.localize(DsoLabelTexts[i]) != u.localize(DsoLabelTexts[j])
  }

  /** Position of a bucket key in the label table. */
  function KeyIndex(k: string): nat
  {
    if k == "SB" then 0 else if k == "S" then 1 else if k == "E" then 2 else if k == "Irr" then 3
    else if k == "Neb" then 4 else if k == "Glob" then 5 else if k == "Open cluster" then 6 else 7
  }

  /** Each entry of the label table is the localised text at its key's position. */
  lemma DsoTypeMapEntry(localize: string -> string, k: string)
    requires k in DsoBucketKeys
    ensures KeyIndex(k) < |DsoBucketKeys| && DsoBucketKeys[KeyIndex(k)] == k
    ensures k in DsoTypeMap(localize) && DsoTypeMap(localize)[k] == localize(DsoLabelTexts[KeyIndex(k)])
  {
  }

  /** A localisation that keeps the eight texts apart keeps the table's labels
      apart. */
  lemma WellLocalizedLabelsDistinct(u: Universe)
    requires WellLocalized(u)
    ensures LabelsDistinct(DsoTypeMap(u.localize))
  {
    var typeMap := DsoTypeMap(u.localize);
    forall a, b | SameLabel(typeMap, a, b) ensures a == b {
      DsoTypeMapEntry(u.localize, a);
      DsoTypeMapEntry(u.localize, b);
    }
  }

  function DsoLeaf(u: Universe, d: DeepSkyObject): BrowserItem
  {
    Leaf(u.dsoName(d), None, DsoObject(d))
  }

  /** The bucket key of catalog entry `i` under the classifier `classify`. */
  function BucketOf(u: Universe, classify: string -> string, i: nat): string
    requires i < |u.dsoCatalog|
  {
    classify(u.dsoCatalog[i].typeTag)
  }

  /** The buckets after filing the first `n` catalog entries: bucket key to a
      name-keyed map of items. A bucket is created by its first entry. */
  function Buckets(u: Universe, classify: string -> string, n: nat): (r: map<string, map<string, BrowserItem>>)
    requires n <= |u.dsoCatalog|
  {
    if n == 0 then map[]
    else File(u, classify, Buckets(u, classify, n - 1), n - 1)
  }

  /** Files catalog entry `i` into its bucket, creating the bucket if needed. */
  function File(u: Universe, classify: string -> string, r: map<string, map<string, BrowserItem>>, i: nat)
    : (r': map<string, map<string, BrowserItem>>)
    requires i < |u.dsoCatalog|
  {
    var d := u.dsoCatalog[i];
    var b := BucketOf(u, classify, i);
    if b in r then r[b := r[b][u.dsoName(d) := DsoLeaf(u, d)]]
    else r[b := map[u.dsoName(d) := DsoLeaf(u, d)]]
  }

  /** Filing more entries never removes a bucket or a name from a bucket. */
  lemma {:induction false} BucketsGrow(u: Universe, classify: string -> string, m: nat, n: nat, b: string, name: string)
    requires m <= n <= |u.dsoCatalog|
    requires b in Buckets(u, classify, m) && name in Buckets(u, classify, m)[b]
    ensures b in Buckets(u, classify, n) && name in Buckets(u, classify, n)[b]
    decreases n
  {
    if m < n {
      BucketsGrow(u, classify, m, n - 1, b, name);
      var r := Buckets(u, classify, n - 1);
      assert Buckets(u, classify, n) == File(u, classify, r, n - 1);
      if b == BucketOf(u, classify, n - 1) {
        assert name in r[b];
      }
    }
  }

  /** Every deep-sky object's name is a key of the bucket its type selects. */
  lemma {:induction false} DsoFiledInItsBucket(u: Universe, classify: string -> string, n: nat, i: nat)
    requires i < n <= |u.dsoCatalog|
    ensures BucketOf(u, classify, i) in Buckets(u, classify, n)
    ensures u.dsoName(u.dsoCatalog[i]) in Buckets(u, classify, n)[BucketOf(u, classify, i)]
  {
    var b := BucketOf(u, classify, i);
    FileSetsSlot(u, classify, i + 1);
    BucketsGrow(u, classify, i + 1, n, b, u.dsoName(u.dsoCatalog[i]));
  }

  /** Catalog entry `i` is the last of the first `n` entries filed into bucket
      `b` under `name`. */
  predicate IsLastFiled(u: Universe, classify: string -> string, n: nat, i: nat, b: string, name: string)
    requires n <= |u.dsoCatalog|
  {
    && i < n
    && BucketOf(u, classify, i) == b
    && u.dsoName(u.dsoCatalog[i]) == name
    && forall j :: i < j < n && BucketOf(u, classify, j) == b ==> u.dsoName(u.dsoCatalog[j]) != name
  }

  /** Filing entry `n - 1` puts its item under its name in its bucket. */
  lemma FileSetsSlot(u: Universe, classify: string -> string, n: nat)
    requires 0 < n <= |u.dsoCatalog|
    ensures var b := BucketOf(u, classify, n - 1);
            var name := u.dsoName(u.dsoCatalog[n - 1]);
            b in Buckets(u, classify, n) && name in Buckets(u, classify, n)[b]
            && Buckets(u, classify, n)[b][name] == DsoLeaf(u, u.dsoCatalog[n - 1])
  {
    assert Buckets(u, classify, n) == File(u, classify, Buckets(u, classify, n - 1), n - 1);
  }

  /** Filing entry `n - 1` leaves every other (bucket, name) slot as it was. */
  lemma FileKeepsOtherSlots(u: Universe, classify: string -> string, n: nat, b: string, name: string)
    requires 0 < n <= |u.dsoCatalog|
    requires b in Buckets(u, classify, n) && name in Buckets(u, classify, n)[b]
    requires !(BucketOf(u, classify, n - 1) == b && u.dsoName(u.dsoCatalog[n - 1]) == name)
    ensures b in Buckets(u, classify, n - 1) && name in Buckets(u, classify, n - 1)[b]
    ensures Buckets(u, classify, n)[b][name] == Buckets(u, classify, n - 1)[b][name]
  {
    assert Buckets(u, classify, n) == File(u, classify, Buckets(u, classify, n - 1), n - 1);
  }

  /** Conversely, each item of a bucket is the item of the LAST catalog entry
      that was classified into that bucket and carries that name. */
  lemma {:induction false} BucketItemIsLastWrite(u: Universe, classify: string -> string, n: nat, b: string, name: string)
    requires n <= |u.dsoCatalog|
    requires b in Buckets(u, classify, n) && name in Buckets(u, classify, n)[b]
    ensures exists i: nat :: IsLastFiled(u, classify, n, i, b, name)
                             && Buckets(u, classify, n)[b][name] == DsoLeaf(u, u.dsoCatalog[i])
  {
    if BucketOf(u, classify, n - 1) == b && u.dsoName(u.dsoCatalog[n - 1]) == name {
      FileSetsSlot(u, classify, n);
      LastFiledIsNewest(u, classify, n);
    } else {
      FileKeepsOtherSlots(u, classify, n, b, name);
      BucketItemIsLastWrite(u, classify, n - 1, b, name);
      var i: nat :| IsLastFiled(u, classify, n - 1, i, b, name)
                    && Buckets(u, classify, n - 1)[b][name] == DsoLeaf(u, u.dsoCatalog[i]);
      LastFiledSurvives(u, classify, n, i, b, name);
    }
  }

  /** The newest entry is the last one filed under its own bucket and name. */
  lemma LastFiledIsNewest(u: Universe, classify: string -> string, n: nat)
    requires 0 < n <= |u.dsoCatalog|
    ensures IsLastFiled(u, classify, n, n - 1, BucketOf(u, classify, n - 1), u.dsoName(u.dsoCatalog[n - 1]))
  {
  }

  /** Filing an entry under another (bucket, name) slot keeps an earlier
      last-filed entry the last one. */
  lemma LastFiledSurvives(u: Universe, classify: string -> string, n: nat, i: nat, b: string, name: string)
    requires 0 < n <= |u.dsoCatalog|
    requires IsLastFiled(u, classify, n - 1, i, b, name)
    requires !(BucketOf(u, classify, n - 1) == b && u.dsoName(u.dsoCatalog[n - 1]) == name)
    ensures IsLastFiled(u, classify, n, i, b, name)
  {
  }

  /** Filing entry `n - 1` adds its bucket key and no other. */
  lemma BucketKeysStep(u: Universe, classify: string -> string, n: nat)
    requires 0 < n <= |u.dsoCatalog|
    ensures Buckets(u, classify, n).Keys == Buckets(u, classify, n - 1).Keys + {BucketOf(u, classify, n - 1)}
  {
    assert Buckets(u, classify, n) == File(u, classify, Buckets(u, classify, n - 1), n - 1);
  }

  /** A bucket exists exactly when some entry was classified into it. */
  lemma {:induction false} BucketExistsIffUsed(u: Universe, classify: string -> string, n: nat, b: string)
    requires n <= |u.dsoCatalog|
    ensures b in Buckets(u, classify, n) <==> exists i :: 0 <= i < n && BucketOf(u, classify, i) == b
  {
    if n > 0 {
      BucketExistsIffUsed(u, classify, n - 1, b);
      BucketKeysStep(u, classify, n);
      if b in Buckets(u, classify, n) && b != BucketOf(u, classify, n - 1) {
        var i :| 0 <= i < n - 1 && BucketOf(u, classify, i) == b;
        assert 0 <= i < n && BucketOf(u, classify, i) == b;
      }
      if exists i :: 0 <= i < n && BucketOf(u, classify, i) == b {
        var i :| 0 <= i < n && BucketOf(u, classify, i) == b;
        if i < n - 1 {
          assert b in Buckets(u, classify, n - 1);
        }
      }
    }
  }

  /** No bucket is ever created empty. */
  lemma BucketsNonEmpty(u: Universe, classify: string -> string, n: nat, b: string)
    requires n <= |u.dsoCatalog|
    requires b in Buckets(u, classify, n)
    ensures |Buckets(u, classify, n)[b]| > 0
  {
    BucketExistsIffUsed(u, classify, n, b);
    var i :| 0 <= i < n && BucketOf(u, classify, i) == b;
    DsoFiledInItsBucket(u, classify, n, i);
  }

  /** The buckets of the whole catalog. */
  function CatalogBuckets(u: Universe, prefixes: seq<string>): map<string, map<string, BrowserItem>>
  {
    Buckets(u, ClassifierOf(prefixes), |u.dsoCatalog|)
  }

  /** The prefix classifier as a function of the type tag alone. */
  function ClassifierOf(prefixes: seq<string>): string -> string
  {
    tag => Classify(tag, prefixes)
  }

  /** Every bucket key is one of the prefixes or "Unknown". */
  lemma BucketKeysBounded(u: Universe, prefixes: seq<string>, b: string)
    requires b in CatalogBuckets(u, prefixes)
    ensures b == UnknownBucket || b in prefixes
  {
    BucketExistsIffUsed(u, ClassifierOf(prefixes), |u.dsoCatalog|, b);
  }

  /** Turns each bucket into a group named by its label. A bucket key without a
      label is a fatal configuration defect. */
  function LabelGroups(temp: map<string, map<string, BrowserItem>>, typeMap: map<string, string>)
    : (r: Result<map<string, BrowserItem>, BrowserError>)
    requires LabelsDistinct(typeMap)
    ensures r.Failure? <==> exists b :: b in temp && b !in typeMap
    ensures r.Failure? ==> r.error.keys == temp.Keys - typeMap.Keys
    ensures r.Success? ==> forall b :: b in temp ==>
              && b in typeMap
              && typeMap[b] in r.value
              && r.value[typeMap[b]] == Interior(typeMap[b], None, Unordered(temp[b]))
    ensures r.Success? ==> forall l :: l in r.value ==> exists b :: b in temp && b in typeMap && typeMap[b] == l
  {
    var missing := temp.Keys - typeMap.Keys;
    if missing != {} then
      Failure(LabelNotFound(missing))
    else
      assert forall b :: b in temp ==> b in typeMap by {
        forall b | b in temp ensures b in typeMap {
          assert b !in missing;
        }
      }
      assert forall a, b :: a in temp && b in temp && typeMap[a] == typeMap[b] ==> a == b by {
        forall a, b | a in temp && b in temp && typeMap[a] == typeMap[b] ensures a == b {
          assert SameLabel(typeMap, a, b);
        }
      }
      Success(map b | b in temp :: typeMap[b] := Interior(typeMap[b], None, Unordered(temp[b])))
  }

  /** One group per bucket: labels are distinct, so no group is lost. */
  lemma LabelGroupsCount(temp: map<string, map<string, BrowserItem>>, typeMap: map<string, string>)
    requires LabelsDistinct(typeMap)
    requires LabelGroups(temp, typeMap).Success?
    ensures |LabelGroups(temp, typeMap).value| == |temp| <= |typeMap|
  {
    var r := LabelGroups(temp, typeMap).value;
    LabelGroupsKeysAreImage(temp, typeMap);
    LabelsInjectiveOn(temp.Keys, typeMap);
    InjectiveImageCardinality(temp.Keys, typeMap);
    SubsetCardinality(temp.Keys, typeMap.Keys);
    assert |r| == |r.Keys| && |temp| == |temp.Keys| && |typeMap| == |typeMap.Keys|;
  }

  /** The group labels are the labels of the bucket keys. */
  lemma LabelGroupsKeysAreImage(temp: map<string, map<string, BrowserItem>>, typeMap: map<string, string>)
    requires LabelsDistinct(typeMap)
    requires LabelGroups(temp, typeMap).Success?
    ensures temp.Keys <= typeMap.Keys
    ensures LabelGroups(temp, typeMap).value.Keys == Image(temp.Keys, typeMap)
  {
    var r := LabelGroups(temp, typeMap).value;
    var image := Image(temp.Keys, typeMap);
    forall l | l in r ensures l in image {
      var b :| b in temp && b in typeMap && typeMap[b] == l;
    }
  }

  /** Distinct labels make the table injective on any set of its keys. */
  lemma LabelsInjectiveOn(keys: set<string>, typeMap: map<string, string>)
    requires LabelsDistinct(typeMap)
    requires keys <= typeMap.Keys
    ensures forall a, b :: a in keys && b in keys && typeMap[a] == typeMap[b] ==> a == b
  {
    forall a, b | a in keys && b in keys && typeMap[a] == typeMap[b] ensures a == b {
      assert SameLabel(typeMap, a, b);
    }
  }

  /** The grouping of the whole catalog by the prefix rules and label table. */
  function GroupDsos(u: Universe, prefixes: seq<string>, typeMap: map<string, string>)
    : (r: Result<map<string, BrowserItem>, BrowserError>)
    requires LabelsDistinct(typeMap)
    ensures r.Success? <==> forall i :: 0 <= i < |u.dsoCatalog| ==> Classify(u.dsoCatalog[i].typeTag, prefixes) in typeMap
  {
    CatalogGroupingSucceedsIff(u, prefixes, typeMap);
    LabelGroups(CatalogBuckets(u, prefixes), typeMap)
  }

  /** Grouping the catalog succeeds exactly when every entry's bucket has a
      label. */
  lemma CatalogGroupingSucceedsIff(u: Universe, prefixes: seq<string>, typeMap: map<string, string>)
    requires LabelsDistinct(typeMap)
    ensures LabelGroups(CatalogBuckets(u, prefixes), typeMap).Success?
            <==> forall i :: 0 <= i < |u.dsoCatalog| ==> Classify(u.dsoCatalog[i].typeTag, prefixes) in typeMap
  {
    var classify := ClassifierOf(prefixes);
    var temp := CatalogBuckets(u, prefixes);
    if forall i :: 0 <= i < |u.dsoCatalog| ==> Classify(u.dsoCatalog[i].typeTag, prefixes) in typeMap {
      forall b | b in temp ensures b in typeMap {
        BucketExistsIffUsed(u, classify, |u.dsoCatalog|, b);
        var i :| 0 <= i < |u.dsoCatalog| && BucketOf(u, classify, i) == b;
        assert b == Classify(u.dsoCatalog[i].typeTag, prefixes);
      }
    } else {
      var i :| 0 <= i < |u.dsoCatalog| && Classify(u.dsoCatalog[i].typeTag, prefixes) !in typeMap;
      DsoFiledInItsBucket(u, classify, |u.dsoCatalog|, i);
      assert BucketOf(u, classify, i) == Classify(u.dsoCatalog[i].typeTag, prefixes);
    }
  }

  /** Every bucket key the prefix rules can produce has a label. */
  predicate TablesCover(prefixes: seq<string>, typeMap: map<string, string>)
  {
    (forall p :: p in prefixes ==> p in typeMap) && UnknownBucket in typeMap
  }

  /** Tables in sync never hit the configuration-defect branch. */
  lemma GroupingSucceeds(u: Universe, prefixes: seq<string>, typeMap: map<string, string>)
    requires LabelsDistinct(typeMap)
    requires TablesCover(prefixes, typeMap)
    ensures GroupDsos(u, prefixes, typeMap).Success?
  {
    var temp := CatalogBuckets(u, prefixes);
    forall b | b in temp ensures b in typeMap {
      BucketKeysBounded(u, prefixes, b);
    }
  }

  /** One group per non-empty bucket: no more groups than labels. */
  lemma GroupCount(u: Universe, prefixes: seq<string>, typeMap: map<string, string>)
    requires LabelsDistinct(typeMap)
    requires GroupDsos(u, prefixes, typeMap).Success?
    ensures |GroupDsos(u, prefixes, typeMap).value| == |CatalogBuckets(u, prefixes)| <= |typeMap|
  {
    LabelGroupsCount(CatalogBuckets(u, prefixes), typeMap);
  }

  /** Every group is a non-empty, name-keyed group named by its label. */
  lemma GroupsNonEmpty(u: Universe, prefixes: seq<string>, typeMap: map<string, string>, l: string)
    requires LabelsDistinct(typeMap)
    requires GroupDsos(u, prefixes, typeMap).Success?
    requires l in GroupDsos(u, prefixes, typeMap).value
    ensures var g := GroupDsos(u, prefixes, typeMap).value[l];
            g.Interior? && g.name == l && g.children.Unordered? && |g.children.entries| > 0
  {
    var temp := CatalogBuckets(u, prefixes);
    var b :| b in temp && b in typeMap && typeMap[b] == l;
    BucketsNonEmpty(u, ClassifierOf(prefixes), |u.dsoCatalog|, b);
  }

  /** Every catalog entry's name is listed in the group labelled with the
      bucket its type selects. */
  lemma ListedUnderItsLabel(u: Universe, prefixes: seq<string>, typeMap: map<string, string>, i: nat)
    requires LabelsDistinct(typeMap)
    requires GroupDsos(u, prefixes, typeMap).Success?
    requires i < |u.dsoCatalog|
    ensures Classify(u.dsoCatalog[i].typeTag, prefixes) in typeMap
    ensures var l := typeMap[Classify(u.dsoCatalog[i].typeTag, prefixes)];
            var groups := GroupDsos(u, prefixes, typeMap).value;
            l in groups && groups[l].Interior? && groups[l].children.Unordered?
            && u.dsoName(u.dsoCatalog[i]) in groups[l].children.entries
  {
    var classify := ClassifierOf(prefixes);
    DsoFiledInItsBucket(u, classify, |u.dsoCatalog|, i);
    assert BucketOf(u, classify, i) == Classify(u.dsoCatalog[i].typeTag, prefixes);
  }

  /** With the shipped tables, grouping succeeds with at most one group per
      bucket key of the table. */
  lemma ShippedGrouping(u: Universe)
    requires WellLocalized(u)
    ensures LabelsDistinct(DsoTypeMap(u.localize))
    ensures GroupDsos(u, DsoPrefixes, DsoTypeMap(u.localize)).Success?
    ensures |GroupDsos(u, DsoPrefixes, DsoTypeMap(u.localize)).value| <= |DsoPrefixes| + 1
  {
    var typeMap := DsoTypeMap(u.localize);
    WellLocalizedLabelsDistinct(u);
    GroupingSucceeds(u, DsoPrefixes, typeMap);
    GroupCount(u, DsoPrefixes, typeMap);
  }

  /** The "Deep Sky Objects" root built with the shipped prefix and label
      tables. The configuration-defect branch is unreachable. */
  function CreateDsoBrowserRoot(u: Universe): (r: Result<BrowserItem, BrowserError>)
    requires WellLocalized(u)
    ensures r.Success?
    ensures r.value.Interior? && r.value.children.Unordered?
    ensures r.value.name == u.localize("Deep Sky Objects")
    ensures r.value.alternativeName == Some(u.localize("DSOs"))
    ensures |r.value.children.entries| <= |DsoPrefixes| + 1
    ensures LabelsDistinct(DsoTypeMap(u.localize))
    ensures GroupDsos(u, DsoPrefixes, DsoTypeMap(u.localize)).Success?
    ensures r.value.children.entries == GroupDsos(u, DsoPrefixes, DsoTypeMap(u.localize)).value
  {
    ShippedGrouping(u);
    var results := GroupDsos(u, DsoPrefixes, DsoTypeMap(u.localize)).value;
    Success(Interior(u.localize("Deep Sky Objects"), Some(u.localize("DSOs")), Unordered(results)))
  }

  /** Every tag starting with "SB" goes to the barred-spiral bucket, never to
      the spiral one. */
  lemma ClassifyBarredSpiral(tag: string)
    requires "SB" <= tag
    ensures Classify(tag, DsoPrefixes) == "SB"
  {
  }

  /** A tag starting with "S" but not with "SB" goes to the spiral bucket. */
  lemma ClassifySpiral(tag: string)
    requires "S" <= tag && !("SB" <= tag)
    ensures Classify(tag, DsoPrefixes) == "S"
  {
  }

  /** A tag matching none of the shipped prefixes goes to "Unknown". */
  lemma ClassifyUnmatched(tag: string)
    requires forall p :: p in DsoPrefixes ==> !(p <= tag)
    ensures Classify(tag, DsoPrefixes) == UnknownBucket
  {
    FindPrefixIsFirstMatch(tag, DsoPrefixes);
  }

  /** Overlapping prefixes: the more specific rule, listed first, wins. */
  lemma ClassifyOverlapExample()
    ensures Classify("SBc", DsoPrefixes) == "SB"
    ensures Classify("Sc", DsoPrefixes) == "S"
  {
    assert "SB" <= "SBc";
    assert "Sc"[1] == 'c' && "S" <= "Sc";
  }

  /** A type matching no prefix falls into "Unknown". */
  lemma ClassifyFallbackExample()
    ensures Classify("PN", DsoPrefixes) == UnknownBucket
  {
    assert "PN"[0] == 'P';
  }

  /** With a label table that lacks an entry for a bucket the catalog uses,
      grouping fails rather than dropping the bucket. */
  lemma UnlabelledBucketFails(u: Universe, prefixes: seq<string>, typeMap: map<string, string>, i: nat)
    requires LabelsDistinct(typeMap)
    requires i < |u.dsoCatalog|
    requires Classify(u.dsoCatalog[i].typeTag, prefixes) !in typeMap
    ensures GroupDsos(u, prefixes, typeMap).Failure?
  {
    DsoFiledInItsBucket(u, ClassifierOf(prefixes), |u.dsoCatalog|, i);
    assert BucketOf(u, ClassifierOf(prefixes), i) == Classify(u.dsoCatalog[i].typeTag, prefixes);
  }
}
