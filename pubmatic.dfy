/** The PubMatic bid adapter: slot parameter parsing (`_cleanSlot`,
    `_parseSlotParam`, `_parseAdSlot`, `_checkParamDataType`), the native
    request and its required assets, bid validation, the `dctr` key-value
    string, the user-sync URL and the deal-channel names of a response. */
module PubMatic {
  import opened Options
  import opened JsStrings
  import opened JsValues

  // ---------------------------------------------------------------------------
  // Slot parameters

  /** `_cleanSlot`: a string with leading and trailing whitespace removed, `''` for anything else. */
  function CleanSlot(slotName: Value): (r: string)
    ensures Trimmed(r)
    ensures !slotName.Str? ==> r == ""
  {
    if slotName.Str? then Trim(slotName.s) else ""
  }

  /** Cleaning a cleaned slot name changes nothing. */
  lemma CleanSlotIdempotent(slotName: Value)
    ensures CleanSlot(Str(CleanSlot(slotName))) == CleanSlot(slotName)
  {
    TrimNoop(CleanSlot(slotName));
  }

  /** Cleaning takes off exactly the whitespace padding around a trimmed name. */
  lemma CleanSlotOfPadded(a: string, m: string, b: string)
    requires forall i :: 0 <= i < |a| ==> IsWhiteSpace(a[i])
    requires forall i :: 0 <= i < |b| ==> IsWhiteSpace(b[i])
    requires Trimmed(m)
    ensures CleanSlot(Str(a + m + b)) == m
  {
    TrimOfPadded(a, m, b);
  }

  /** What `_parseSlotParam` returns: `undefined`, a string, an integer, or
      the text of a decimal number that `parseFloat` would read. */
  datatype SlotParam = Unset | Text(s: string) | Int(n: int) | DecimalText(raw: string)

  /** `arr.slice(0, n)` */
  function Take<T>(s: seq<T>, n: nat): (r: seq<T>)
    ensures |r| <= n && |r| <= |s| && r == s[..|r|]
    ensures |s| <= n ==> r == s
  {
    if |s| <= n then s else s[..n]
  }

  /** `arr.map(id => id.trim())` */
  function TrimAll(parts: seq<string>): (r: seq<string>)
    ensures |r| == |parts|
    ensures forall i :: 0 <= i < |parts| ==> r[i] == Trim(parts[i])
  {
    seq(|parts|, i requires 0 <= i < |parts| => Trim(parts[i]))
  }

  /** The `pmzoneid` case: at most the first 50 comma-separated ids, each
      trimmed, joined again with commas. */
  function ZoneIds(s: string): string {
    Join(TrimAll(Take(Split(s, ','), 50)), ",")
  }

  /** The zone ids read back from the result are the first (at most 50) ids
      of the input, each trimmed. */
  lemma ZoneIdsList(s: string)
    ensures var ids := Split(ZoneIds(s), ',');
      var given := Split(s, ',');
      |ids| == (if |given| <= 50 then |given| else 50)
      && forall i :: 0 <= i < |ids| ==> ids[i] == Trim(given[i])
  {
    var parts := TrimAll(Take(Split(s, ','), 50));
    forall i | 0 <= i < |parts|
      ensures ',' !in parts[i]
    {
      TrimKeepsAbsent(Take(Split(s, ','), 50)[i], ',');
    }
    JoinSplit(parts, ',');
  }

  /** Normalising zone ids twice is normalising them once. */
  lemma ZoneIdsIdempotent(s: string)
    ensures ZoneIds(ZoneIds(s)) == ZoneIds(s)
  {
    ZoneIdsList(s);
    var ids := Split(ZoneIds(s), ',');
    var parts := TrimAll(Take(Split(s, ','), 50));
    assert ids == parts by {
      forall i | 0 <= i < |parts|
        ensures ',' !in parts[i]
      {
        TrimKeepsAbsent(Take(Split(s, ','), 50)[i], ',');
      }
      JoinSplit(parts, ',');
    }
    forall i | 0 <= i < |ids|
      ensures Trim(ids[i]) == ids[i]
    {
      TrimIdempotent(Take(Split(s, ','), 50)[i]);
    }
    assert TrimAll(Take(ids, 50)) == ids;
  }

  /** `_parseSlotParam` for its string cases. */
  function ParseSlotParam(paramName: string, paramValue: Value): (r: SlotParam)
    ensures !paramValue.Str? ==> r == Unset
    ensures paramValue.Str? && paramName !in {"pmzoneid", "kadfloor", "lat", "lon", "yob"} ==> r == Text(paramValue.s)
    ensures r.Int? ==> r.n != 0
  {
    if !paramValue.Str? then Unset
    else if paramName == "pmzoneid" then Text(ZoneIds(paramValue.s))
    else if paramName == "kadfloor" || paramName == "lat" || paramName == "lon" then DecimalText(paramValue.s)
    else if paramName == "yob" then
      var n := ParseInt(paramValue.s);
      if n.None? || n.value == 0 then Unset else Int(n.value)
    else Text(paramValue.s)
  }

  /** A year of birth written as an integer is read back as that integer; `0` is dropped. */
  lemma YobRoundTrip(year: int)
    ensures ParseSlotParam("yob", Str(IntToString(year))) == if year == 0 then Unset else Int(year)
  {
    ParseIntOfIntToString(year);
  }

  // ---------------------------------------------------------------------------
  // `_parseAdSlot`: `adUnit@WxH:index`

  /** The fields `_parseAdSlot` leaves on the bid: the cleaned slot, the ad
      unit, the index, the width and height (`None` is `NaN`) and `sizes`
      (`None` once deleted or when never present). */
  datatype AdSlotFields = AdSlotFields(
    adSlot: string, adUnit: string, adUnitIndex: string,
    width: Option<int>, height: Option<int>, sizes: Option<Value>)

  predicate SizesArrayExists(sizes: Option<Value>) {
    sizes.Some? && sizes.value.Arr? && |sizes.value.items| >= 1
  }

  /** The result of `_parseAdSlot` on a bid with that `sizes`, once its
      `adSlot` has been cleaned to `slot`. */
  function ParsedAdSlot(slot: string, sizes: Option<Value>): AdSlotFields {
    var colon := Split(slot, ':');
    var index := if |colon| == 2 then colon[1] else "0";
    var at := Split(colon[0], '@');
    if |at| != 2 && !SizesArrayExists(sizes) then AdSlotFields(slot, "", index, Some(0), Some(0), sizes)
    else if |at| > 1 then
      var dims := Split(at[1], 'x');
      if |dims| != 2 then AdSlotFields(slot, at[0], index, Some(0), Some(0), sizes)
      else AdSlotFields(slot, at[0], index, ParseInt(dims[0]), ParseInt(dims[1]), None)
    else
      var first := sizes.value.items[0];
      AdSlotFields(slot, at[0], index, ParseIntValue(Index(first, 0)), ParseIntValue(Index(first, 1)), sizes)
  }

  /** The text of a slot `unit@WxH:index`. */
  function SlotText(unit: string, w: int, h: int, index: string): string {
    unit + "@" + IntToString(w) + "x" + IntToString(h) + ":" + index
  }

  /** `_parseAdSlot` on a slot whose `@` part holds a size `AxB`. */
  lemma ParsedAdSlotSized(s: string, sizes: Option<Value>, unit: string, dims: string, a: string, b: string)
    requires Split(Split(s, ':')[0], '@') == [unit, dims]
    requires Split(dims, 'x') == [a, b]
    ensures ParsedAdSlot(s, sizes) == AdSlotFields(s, unit,
      if |Split(s, ':')| == 2 then Split(s, ':')[1] else "0", ParseInt(a), ParseInt(b), None)
  {
  }

  /** `unit@WxH:index` is read back as its parts, and `sizes` is deleted. */
  lemma ParsedAdSlotRoundTrip(unit: string, w: int, h: int, index: string, sizes: Option<Value>)
    requires '@' !in unit && ':' !in unit && ':' !in index
    ensures ParsedAdSlot(SlotText(unit, w, h, index), sizes)
      == AdSlotFields(SlotText(unit, w, h, index), unit, index, Some(w), Some(h), None)
  {
    var dims := IntToString(w) + "x" + IntToString(h);
    var s := SlotText(unit, w, h, index);
    var head := unit + "@" + dims;
    SplitSizeText(w, h);
    assert Split(s, ':') == [head, index] by {
      assert s == head + [':'] + index;
      SplitAtSeparator(head, index, ':');
      SplitNoSeparator(index, ':');
    }
    assert Split(head, '@') == [unit, dims] by {
      assert head == unit + ['@'] + dims;
      SplitAtSeparator(unit, dims, '@');
      SplitNoSeparator(dims, '@');
    }
    ParsedAdSlotSized(s, sizes, unit, dims, IntToString(w), IntToString(h));
    ParseIntOfIntToString(w);
    ParseIntOfIntToString(h);
  }

  /** Without `:index` the index stays `'0'`. */
  lemma ParsedAdSlotDefaultIndex(unit: string, w: int, h: int, sizes: Option<Value>)
    requires '@' !in unit && ':' !in unit
    ensures var f := ParsedAdSlot(unit + "@" + IntToString(w) + "x" + IntToString(h), sizes);
      f.adUnit == unit && f.adUnitIndex == "0" && f.width == Some(w) && f.height == Some(h)
  {
    var dims := IntToString(w) + "x" + IntToString(h);
    var s := unit + "@" + IntToString(w) + "x" + IntToString(h);
    SplitSizeText(w, h);
    assert s == unit + ['@'] + dims;
    assert Split(s, ':') == [s] by {
      assert ':' !in s;
      SplitNoSeparator(s, ':');
    }
    assert Split(s, '@') == [unit, dims] by {
      SplitAtSeparator(unit, dims, '@');
      SplitNoSeparator(dims, '@');
    }
    ParsedAdSlotSized(s, sizes, unit, dims, IntToString(w), IntToString(h));
    ParseIntOfIntToString(w);
    ParseIntOfIntToString(h);
  }

  /** Without `@` and without a sizes array the slot is rejected: no ad unit,
      zero width and height. */
  lemma ParsedAdSlotRejected(adSlot: Value, sizes: Option<Value>)
    requires adSlot.Str? ==> '@' !in adSlot.s
    requires !SizesArrayExists(sizes)
    ensures var f := ParsedAdSlot(CleanSlot(adSlot), sizes);
      f.adUnit == "" && f.width == Some(0) && f.height == Some(0) && f.sizes == sizes
  {
    var slot := CleanSlot(adSlot);
    if adSlot.Str? {
      TrimKeepsAbsent(adSlot.s, '@');
    }
    SplitKeepsAbsent(slot, ':', '@');
    SplitNoSeparator(Split(slot, ':')[0], '@');
  }

  /** Without `@` but with a sizes array, the width and height are the first size's. */
  lemma ParsedAdSlotFromSizes(adSlot: Value, w: int, h: int, rest: seq<Value>)
    requires adSlot.Str? ==> '@' !in adSlot.s
    ensures var f := ParsedAdSlot(CleanSlot(adSlot), Some(Arr([Arr([Num(w), Num(h)])] + rest)));
      f.adUnit == Split(CleanSlot(adSlot), ':')[0] && f.width == Some(w) && f.height == Some(h)
      && f.sizes.Some?
  {
    var slot := CleanSlot(adSlot);
    if adSlot.Str? {
      TrimKeepsAbsent(adSlot.s, '@');
    }
    SplitKeepsAbsent(slot, ':', '@');
    SplitNoSeparator(Split(slot, ':')[0], '@');
    ParseIntOfNum(w);
    ParseIntOfNum(h);
  }

  /** A size part that is not `AxB` leaves width and height at zero and keeps `sizes`. */
  lemma ParsedAdSlotBadSize(unit: string, dims: string, sizes: Option<Value>)
    requires '@' !in unit && ':' !in unit && '@' !in dims && ':' !in dims && 'x' !in dims
    ensures var f := ParsedAdSlot(unit + "@" + dims, sizes);
      f.adUnit == unit && f.width == Some(0) && f.height == Some(0) && f.sizes == sizes
  {
    var s := unit + "@" + dims;
    assert ':' !in s;
    SplitNoSeparator(s, ':');
    assert s == unit + ['@'] + dims;
    SplitAtSeparator(unit, dims, '@');
    SplitNoSeparator(dims, '@');
    SplitNoSeparator(dims, 'x');
  }

  /** The slot fields of one (cloned) bid, which `_parseAdSlot` rewrites in place. */
  class SlotBid {
    /** `bid.params.adSlot` */
    var adSlot: Value
    /** `bid.params.adUnit` */
    var adUnit: string
    /** `bid.params.adUnitIndex` */
    var adUnitIndex: string
    /** `bid.params.width`, `None` for `NaN` */
    var width: Option<int>
    /** `bid.params.height`, `None` for `NaN` */
    var height: Option<int>
    /** `bid.sizes`, `None` when the bid has no such property */
    var sizes: Option<Value>

    constructor (adSlot: Value, sizes: Option<Value>)
      ensures this.adSlot == adSlot && this.sizes == sizes
    {
      this.adSlot := adSlot;
      this.sizes := sizes;
      adUnit := "";
      adUnitIndex := "0";
      width := Some(0);
      height := Some(0);
    }

    /** `_parseAdSlot(bid)` */
    method ParseAdSlot()
      modifies this
      ensures var f := ParsedAdSlot(CleanSlot(old(adSlot)), old(sizes));
        adSlot == Str(CleanSlot(old(adSlot))) && adUnit == f.adUnit && adUnitIndex == f.adUnitIndex
        && width == f.width && height == f.height && sizes == f.sizes
    {
      var given := sizes;
      var slot := CleanSlot(adSlot);
      adSlot := Str(slot);
      var unit, index, w, h, kept := ParseSlotText(slot, given);
      adUnit, adUnitIndex, width, height, sizes := unit, index, w, h, kept;
    }
  }

  /** The steps of `_parseAdSlot` after the slot name is cleaned. */
  method ParseSlotText(slot: string, sizes: Option<Value>)
    returns (adUnit: string, adUnitIndex: string, width: Option<int>, height: Option<int>, keptSizes: Option<Value>)
    ensures var f := ParsedAdSlot(slot, sizes);
      adUnit == f.adUnit && adUnitIndex == f.adUnitIndex && width == f.width && height == f.height
      && keptSizes == f.sizes
  {
    adUnit, adUnitIndex, width, height, keptSizes := "", "0", Some(0), Some(0), sizes;
    var sizesArrayExists := sizes.Some? && sizes.value.Arr? && |sizes.value.items| >= 1;
    var splits := Split(slot, ':');
    var rest := splits[0];
    if |splits| == 2 {
      adUnitIndex := splits[1];
    }
    splits := Split(rest, '@');
    if |splits| != 2 && !sizesArrayExists {
      return;
    }
    adUnit := splits[0];
    if |splits| > 1 {
      splits := Split(splits[1], 'x');
      if |splits| != 2 {
        return;
      }
      width := ParseInt(splits[0]);
      height := ParseInt(splits[1]);
      keptSizes := None;
    } else {
      var first := sizes.value.items[0];
      width := ParseIntValue(Index(first, 0));
      height := ParseIntValue(Index(first, 1));
    }
  }

  // ---------------------------------------------------------------------------
  // `_checkParamDataType`

  /** `isBoolean`, `isNumber`, `isStr` and `isArray` for the four declared types. */
  predicate HasDataType(value: Value, declared: string) {
    (declared == "boolean" && value.Bool?) || (declared == "number" && value.Num?)
    || (declared == "string" && value.Str?) || (declared == "array" && value.Arr?)
  }

  /** `_checkParamDataType(key, value, datatype)`: the value when it has the
      declared type, `undefined` otherwise (also for any other declared type). */
  function CheckParamDataType(value: Value, declared: string): (r: Value)
    ensures HasDataType(value, declared) ==> r == value
    ensures !HasDataType(value, declared) ==> r == Undefined
  {
    if declared == "boolean" then (if value.Bool? then value else Undefined)
    else if declared == "number" then (if value.Num? then value else Undefined)
    else if declared == "string" then (if value.Str? then value else Undefined)
    else if declared == "array" then (if value.Arr? then value else Undefined)
    else Undefined
  }

  /** A checked value passes the same check again unchanged. */
  lemma CheckParamDataTypeIdempotent(value: Value, declared: string)
    ensures CheckParamDataType(CheckParamDataType(value, declared), declared) == CheckParamDataType(value, declared)
  {
  }

  // ---------------------------------------------------------------------------
  // Native requests

  /** An entry of `assets`: its id and its `required` flag (1 or 0). */
  datatype NativeAsset = NativeAsset(id: nat, required: nat)

  /** The keys that become an asset without any condition, with their ids. */
  const PlainAssetIds: map<string, nat> := map[
    "sponsoredBy" := 4, "body" := 5, "video" := 7, "ext" := 8, "logo" := 10,
    "rating" := 13, "likes" := 14, "downloads" := 15, "price" := 16, "saleprice" := 17,
    "phone" := 18, "address" := 19, "desc2" := 20, "displayurl" := 21, "cta" := 22]

  /** The ids of `NATIVE_MINIMUM_REQUIRED_IMAGE_ASSETS`: sponsoredBy, title, image. */
  const RequiredAssetIds: seq<nat> := [4, 1, 2]

  function RequiredFlag(v: Value): nat {
    if Truthy(Get(v, "required")) then 1 else 0
  }

  /** `params[key].len || params[key].length` */
  predicate TitleHasLength(v: Value) {
    Truthy(Get(v, "len")) || Truthy(Get(v, "length"))
  }

  /** `params[key].sizes && params[key].sizes.length > 0` */
  predicate HasSizes(v: Value) {
    var sizes := Get(v, "sizes");
    Truthy(sizes) && Get(sizes, "length").Num? && Get(sizes, "length").n > 0
  }

  /** The asset the `switch` of `_createNativeRequest` builds for one key, if any. */
  function AssetFor(key: string, v: Value): (r: Option<NativeAsset>)
    ensures r.Some? ==> r.value.id >= 1 && r.value.required == RequiredFlag(v)
  {
    if key == "title" then (if TitleHasLength(v) then Some(NativeAsset(1, RequiredFlag(v))) else None)
    else if key == "image" then (if HasSizes(v) then Some(NativeAsset(2, RequiredFlag(v))) else None)
    else if key == "icon" then (if HasSizes(v) then Some(NativeAsset(3, RequiredFlag(v))) else None)
    else if key in PlainAssetIds then Some(NativeAsset(PlainAssetIds[key], RequiredFlag(v)))
    else None
  }

  /** The key each asset id is built from. */
  const AssetKeys: map<nat, string> := map[
    1 := "title", 2 := "image", 3 := "icon", 4 := "sponsoredBy", 5 := "body", 7 := "video",
    8 := "ext", 10 := "logo", 13 := "rating", 14 := "likes", 15 := "downloads", 16 := "price",
    17 := "saleprice", 18 := "phone", 19 := "address", 20 := "desc2", 21 := "displayurl", 22 := "cta"]

  /** An asset's id names the key it was built from. */
  lemma AssetKeyOfId(key: string, v: Value)
    requires AssetFor(key, v).Some?
    ensures AssetFor(key, v).value.id in AssetKeys && AssetKeys[AssetFor(key, v).value.id] == key
  {
    if key in PlainAssetIds && key != "title" && key != "image" && key != "icon" {
      PlainAssetKeyOfId(key);
    }
  }

  lemma PlainAssetKeyOfId(key: string)
    requires key in PlainAssetIds
    ensures PlainAssetIds[key] in AssetKeys && AssetKeys[PlainAssetIds[key]] == key
  {
  }

  /** Each asset id comes from one key only, so distinct keys give distinct assets. */
  lemma AssetIdIdentifiesKey(k1: string, v1: Value, k2: string, v2: Value)
    requires AssetFor(k1, v1).Some? && AssetFor(k2, v2).Some?
    requires AssetFor(k1, v1).value.id == AssetFor(k2, v2).value.id
    ensures k1 == k2
  {
    AssetKeyOfId(k1, v1);
    AssetKeyOfId(k2, v2);
  }

  /** The required ids come from sponsoredBy, a title with a length and an image with sizes. */
  lemma RequiredAssetFor(key: string, v: Value)
    ensures (AssetFor(key, v).Some? && AssetFor(key, v).value.id == 4) <==> key == "sponsoredBy"
    ensures (AssetFor(key, v).Some? && AssetFor(key, v).value.id == 1) <==> key == "title" && TitleHasLength(v)
    ensures (AssetFor(key, v).Some? && AssetFor(key, v).value.id == 2) <==> key == "image" && HasSizes(v)
  {
    if AssetFor(key, v).Some? {
      AssetKeyOfId(key, v);
    }
  }

  /** The `assets` list for the native parameters, in their enumeration order. */
  function NativeAssets(params: seq<(string, Value)>): seq<NativeAsset>
    decreases |params|
  {
    if params == [] then []
    else
      var last := params[|params| - 1];
      var a := AssetFor(last.0, last.1);
      NativeAssets(params[..|params| - 1]) + (if a.Some? then [a.value] else [])
  }

  predicate HasId(assets: seq<NativeAsset>, id: nat) {
    exists j :: 0 <= j < |assets| && assets[j].id == id
  }

  /** How many of `ids` occur among the assets. */
  function CountPresent(ids: seq<nat>, assets: seq<NativeAsset>): (n: nat)
    ensures n <= |ids|
    decreases |ids|
  {
    if ids == [] then 0
    else CountPresent(ids[..|ids| - 1], assets) + (if HasId(assets, ids[|ids| - 1]) then 1 else 0)
  }

  /** sponsoredBy, title and image are all there. */
  predicate HasRequiredAssets(assets: seq<NativeAsset>) {
    HasId(assets, 4) && HasId(assets, 1) && HasId(assets, 2)
  }

  /** All three required ids are counted exactly when all three are present. */
  lemma CountPresentRequired(assets: seq<NativeAsset>)
    ensures CountPresent(RequiredAssetIds, assets) == 3 <==> HasRequiredAssets(assets)
  {
    assert RequiredAssetIds[..2] == [4, 1];
    assert RequiredAssetIds[..2][..1] == [4];
    assert [4][..0] == [];
  }

  lemma {:induction false} NativeAssetsHasId(params: seq<(string, Value)>, id: nat)
    ensures HasId(NativeAssets(params), id)
      <==> exists i :: 0 <= i < |params| && AssetFor(params[i].0, params[i].1).Some?
                       && AssetFor(params[i].0, params[i].1).value.id == id
    decreases |params|
  {
    if params != [] {
      var init := params[..|params| - 1];
      var last := params[|params| - 1];
      var a := AssetFor(last.0, last.1);
      NativeAssetsHasId(init, id);
      var tail: seq<NativeAsset> := if a.Some? then [a.value] else [];
      assert NativeAssets(params) == NativeAssets(init) + tail;
      if HasId(NativeAssets(params), id) {
        var j :| 0 <= j < |NativeAssets(params)| && NativeAssets(params)[j].id == id;
        if j >= |NativeAssets(init)| {
          assert AssetFor(params[|params| - 1].0, params[|params| - 1].1).value.id == id;
        } else {
          assert NativeAssets(init)[j].id == id;
          var i :| 0 <= i < |init| && AssetFor(init[i].0, init[i].1).Some? && AssetFor(init[i].0, init[i].1).value.id == id;
          assert params[i] == init[i];
        }
      }
      if exists i :: 0 <= i < |params| && AssetFor(params[i].0, params[i].1).Some?
                     && AssetFor(params[i].0, params[i].1).value.id == id {
        var i :| 0 <= i < |params| && AssetFor(params[i].0, params[i].1).Some?
                 && AssetFor(params[i].0, params[i].1).value.id == id;
        if i == |params| - 1 {
          assert NativeAssets(params)[|NativeAssets(init)|].id == id;
        } else {
          assert params[i] == init[i];
          var j :| 0 <= j < |NativeAssets(init)| && NativeAssets(init)[j].id == id;
          assert NativeAssets(params)[j].id == id;
        }
      }
    }
  }

  /** A native request is valid exactly when the parameters have a
      `sponsoredBy` entry, a `title` with a length and an `image` with sizes. */
  lemma NativeRequestValidity(params: seq<(string, Value)>)
    ensures HasRequiredAssets(NativeAssets(params)) <==>
      (exists i :: 0 <= i < |params| && params[i].0 == "sponsoredBy")
      && (exists i :: 0 <= i < |params| && params[i].0 == "title" && TitleHasLength(params[i].1))
      && (exists i :: 0 <= i < |params| && params[i].0 == "image" && HasSizes(params[i].1))
  {
    forall i | 0 <= i < |params| {
      RequiredAssetFor(params[i].0, params[i].1);
    }
    NativeAssetsHasId(params, 4);
    NativeAssetsHasId(params, 1);
    NativeAssetsHasId(params, 2);
  }

  // ---------------------------------------------------------------------------
  // Bid validation

  /** `spec.isBidRequestValid` */
  function IsBidRequestValid(bid: Value): (r: bool)
    ensures r <==>
      var params := Get(bid, "params");
      params.Obj? && Get(params, "publisherId").Str? && Get(params, "adSlot").Str?
      && (HasOwn(params, "video") ==>
            var mimes := Get(Get(params, "video"), "mimes");
            mimes.Arr? && |mimes.items| > 0)
  {
    var params := Get(bid, "params");
    if Truthy(bid) && Truthy(params) then
      if !Get(params, "publisherId").Str? then false
      else if !Get(params, "adSlot").Str? then false
      else if HasOwn(params, "video") then
        var video := Get(params, "video");
        HasOwn(video, "mimes") && Get(video, "mimes").Arr? && |Get(video, "mimes").items| != 0
      else true
    else false
  }

  // ---------------------------------------------------------------------------
  // The `dctr` key-value string

  /** `dctr.substring(len, len - 1) === '|'` then drop it: one trailing `|` is removed. */
  function DropTrailingBar(s: string): string {
    if |s| > 0 && s[|s| - 1] == '|' then s[..|s| - 1] else s
  }

  /** The `forEach` accumulation as written: every non-empty segment, trimmed, then `|`. */
  function AccumulatedAsWritten(segments: seq<string>): string
    decreases |segments|
  {
    if segments == [] then ""
    else
      var v := segments[|segments| - 1];
      AccumulatedAsWritten(segments[..|segments| - 1]) + (if |v| > 0 then Trim(v) + "|" else "")
  }

  /** The `key_val` the source builds from a non-empty `dctr` string. */
  function DctrKeyValueAsWritten(dctr: string): string {
    Trim(DropTrailingBar(AccumulatedAsWritten(Split(dctr, '|'))))
  }

  /** The segments that carry something once trimmed, trimmed. */
  function KeptSegments(segments: seq<string>): (r: seq<string>)
    ensures forall i :: 0 <= i < |r| ==> r[i] != "" && Trimmed(r[i])
    decreases |segments|
  {
    if segments == [] then []
    else
      var v := Trim(segments[|segments| - 1]);
      KeptSegments(segments[..|segments| - 1]) + (if v != "" then [v] else [])
  }

  /** The accumulation with blank segments skipped. */
  function Accumulated(segments: seq<string>): string
    decreases |segments|
  {
    if segments == [] then ""
    else
      var v := Trim(segments[|segments| - 1]);
      Accumulated(segments[..|segments| - 1]) + (if v != "" then v + "|" else "")
  }

  lemma {:induction false} AccumulatedIsJoin(segments: seq<string>)
    ensures var kept := KeptSegments(segments);
      Accumulated(segments) == if kept == [] then "" else Join(kept, "|") + "|"
    decreases |segments|
  {
    if segments != [] {
      var init := segments[..|segments| - 1];
      AccumulatedIsJoin(init);
      var v := Trim(segments[|segments| - 1]);
      var k0 := KeptSegments(init);
      var a0 := Accumulated(init);
      if v == "" {
        assert KeptSegments(segments) == k0 + [] == k0;
        assert Accumulated(segments) == a0 + "" == a0;
      } else {
        assert KeptSegments(segments) == k0 + [v];
        assert Accumulated(segments) == a0 + (v + "|");
        if k0 == [] {
          assert k0 + [v] == [v];
        } else {
          JoinSnoc(k0, v, "|");
        }
      }
    }
  }

  lemma {:induction false} KeptSegmentsHaveNoBar(segments: seq<string>)
    requires forall i :: 0 <= i < |segments| ==> '|' !in segments[i]
    ensures forall i :: 0 <= i < |KeptSegments(segments)| ==> '|' !in KeptSegments(segments)[i]
    decreases |segments|
  {
    if segments != [] {
      KeptSegmentsHaveNoBar(segments[..|segments| - 1]);
      TrimKeepsAbsent(segments[|segments| - 1], '|');
    }
  }

  lemma JoinOfTrimmedIsTrimmed(parts: seq<string>)
    requires |parts| >= 1
    requires forall i :: 0 <= i < |parts| ==> parts[i] != "" && Trimmed(parts[i])
    ensures Trimmed(Join(parts, "|"))
    ensures var j := Join(parts, "|"); j != "" && j[|j| - 1] == parts[|parts| - 1][|parts[|parts| - 1]| - 1]
  {
    JoinEnds(parts, "|");
    var j := Join(parts, "|");
    var l := parts[|parts| - 1];
    assert j[0] == parts[0][0];
    assert j[|j| - 1] == j[|j| - |l|..][|l| - 1];
  }

  /** Joined non-blank trimmed segments followed by `|`: dropping the bar and
      trimming gives back the join, which splits into the segments. */
  lemma JoinedSegmentsFacts(kept: seq<string>)
    requires kept != []
    requires forall i :: 0 <= i < |kept| ==> kept[i] != "" && Trimmed(kept[i]) && '|' !in kept[i]
    ensures var j := Join(kept, "|");
      Trim(DropTrailingBar(j + "|")) == j && Split(j, '|') == kept && j != [] && j[|j| - 1] != '|'
  {
    var j := Join(kept, "|");
    assert DropTrailingBar(j + "|") == j by {
      assert (j + "|")[..|j|] == j;
    }
    JoinOfTrimmedIsTrimmed(kept);
    TrimNoop(j);
    JoinSplit(kept, '|');
    var l := kept[|kept| - 1];
    assert l[|l| - 1] in l;
  }

  /** The facts about the trimmed accumulation that `DctrKeyValue` promises. */
  lemma DctrAccumulationFacts(dctr: string)
    ensures var kept := KeptSegments(Split(dctr, '|'));
      var r := Trim(DropTrailingBar(Accumulated(Split(dctr, '|'))));
      r == Join(kept, "|") && (kept != [] ==> Split(r, '|') == kept) && (r == [] || r[|r| - 1] != '|')
  {
    var segments := Split(dctr, '|');
    var kept := KeptSegments(segments);
    AccumulatedIsJoin(segments);
    if kept != [] {
      KeptSegmentsHaveNoBar(segments);
      JoinedSegmentsFacts(kept);
    } else {
      TrimNoop("");
    }
  }

  /** The `key_val` with blank segments skipped: the non-blank segments,
      trimmed, joined with `|`; reading it back with `split('|')` gives those
      segments, and it never ends in `|`. */
  function DctrKeyValue(dctr: string): (r: string)
    ensures var kept := KeptSegments(Split(dctr, '|'));
      r == Join(kept, "|") && (kept != [] ==> Split(r, '|') == kept)
    ensures r == [] || r[|r| - 1] != '|'
  {
    DctrAccumulationFacts(dctr);
    Trim(DropTrailingBar(Accumulated(Split(dctr, '|'))))
  }

  lemma {:induction false} AccumulationsAgree(segments: seq<string>)
    requires forall i :: 0 <= i < |segments| ==> segments[i] == "" || Trim(segments[i]) != ""
    ensures AccumulatedAsWritten(segments) == Accumulated(segments)
    decreases |segments|
  {
    if segments != [] {
      AccumulationsAgree(segments[..|segments| - 1]);
      if segments[|segments| - 1] == "" {
        TrimNoop("");
      }
    }
  }

  /** Where no segment is made of whitespace alone, the code as written and
      the corrected reading give the same string. */
  lemma DctrReadingsAgree(dctr: string)
    requires forall i :: 0 <= i < |Split(dctr, '|')| ==> Split(dctr, '|')[i] == "" || Trim(Split(dctr, '|')[i]) != ""
    ensures DctrKeyValueAsWritten(dctr) == DctrKeyValue(dctr)
  {
    AccumulationsAgree(Split(dctr, '|'));
  }

  /** The two segments of `a|b` where `a` carries text and `b` is whitespace alone. */
  lemma BlankSegmentSplit(a: string, b: string)
    requires a != [] && Trimmed(a) && '|' !in a
    requires b != [] && forall i :: 0 <= i < |b| ==> IsWhiteSpace(b[i])
    ensures Split(a + "|" + b, '|') == [a, b]
    ensures Trim(a) == a && Trim(b) == ""
  {
    assert '|' !in b by {
      forall i | 0 <= i < |b| ensures b[i] != '|' {
        assert IsWhiteSpace(b[i]);
      }
    }
    SplitNoSeparator(b, '|');
    assert a + "|" + b == a + ['|'] + b;
    SplitAtSeparator(a, b, '|');
    TrimNoop(a);
    TrimOfPadded(b, "", "");
    assert b + "" + "" == b;
  }

  /** A segment of whitespace alone passes the length test, trims to nothing
      and leaves a `|` at the end of the value as written. */
  lemma BlankDctrSegmentLeavesTrailingBar(a: string, b: string)
    requires a != [] && Trimmed(a) && '|' !in a
    requires b != [] && forall i :: 0 <= i < |b| ==> IsWhiteSpace(b[i])
    ensures DctrKeyValueAsWritten(a + "|" + b) == a + "|"
  {
    BlankSegmentSplit(a, b);
    var segments := Split(a + "|" + b, '|');
    assert segments[..1] == [a];
    assert [a][..0] == [];
    var first := AccumulatedAsWritten([a]);
    assert first == a + "|" by {
      assert first == AccumulatedAsWritten([]) + (Trim(a) + "|");
    }
    assert AccumulatedAsWritten(segments) == a + "||" by {
      assert AccumulatedAsWritten(segments) == first + (Trim(b) + "|");
    }
    assert DropTrailingBar(a + "||") == a + "|" by {
      assert (a + "||")[..|a| + 1] == a + "|";
    }
    assert Trimmed(a + "|");
    TrimNoop(a + "|");
  }

  /** The corrected reading of the same input drops the blank segment. */
  lemma BlankDctrSegmentDropped(a: string, b: string)
    requires a != [] && Trimmed(a) && '|' !in a
    requires b != [] && forall i :: 0 <= i < |b| ==> IsWhiteSpace(b[i])
    ensures DctrKeyValue(a + "|" + b) == a
  {
    BlankSegmentSplit(a, b);
    var segments := Split(a + "|" + b, '|');
    assert segments[..1] == [a];
    assert [a][..0] == [];
    assert KeptSegments(segments) == [a] by {
      assert KeptSegments([a]) == KeptSegments([]) + [a];
    }
  }

  /** `site.ext.key_val` from one `dctr` parameter: `None` (no `site.ext`)
      unless it is a non-empty string. */
  method NormalizeDctr(dctr: Value) returns (keyVal: Option<string>)
    ensures keyVal == if dctr.Str? && |dctr.s| > 0 then Some(DctrKeyValue(dctr.s)) else None
  {
    if !(dctr.Str? && |dctr.s| > 0) {
      return None;
    }
    var acc := AccumulateSegments(Split(dctr.s, '|'));
    var len := |acc|;
    if len > 0 && acc[len - 1] == '|' {
      acc := acc[..len - 1];
    }
    keyVal := Some(Trim(acc));
  }

  /** The `forEach` over the `dctr` segments, blank segments skipped. */
  method AccumulateSegments(arr: seq<string>) returns (acc: string)
    ensures acc == Accumulated(arr)
  {
    acc := "";
    var i := 0;
    while i < |arr|
      invariant 0 <= i <= |arr|
      invariant acc == Accumulated(arr[..i])
    {
      // blank segments are skipped: see `DctrKeyValueAsWritten`
      var v := Trim(arr[i]);
      acc := acc + (if v != "" then v + "|" else "");
      assert arr[..i + 1][..i] == arr[..i];
      i := i + 1;
    }
    assert arr[..i] == arr;
  }

  // ---------------------------------------------------------------------------
  // Deal channels

  /** `dealChannelValues` */
  const DealChannelValues: map<string, string> := map["1" := "PMP", "5" := "PREF", "6" := "PMPG"]

  /** The `dealChannel` of a bid response: not set unless `bid.ext.deal_channel`
      is truthy, then the table's name for it or `null`. */
  function DealChannel(bidExt: Value): (r: Option<Value>)
    ensures r.None? <==> !(Truthy(bidExt) && Truthy(Get(bidExt, "deal_channel")))
    ensures r.Some? ==> r.value == Null || r.value == Str("PMP") || r.value == Str("PREF") || r.value == Str("PMPG")
  {
    if Truthy(bidExt) && Truthy(Get(bidExt, "deal_channel")) then
      var key := ToString(Get(bidExt, "deal_channel"));
      Some(if key in DealChannelValues then Str(DealChannelValues[key]) else Null)
    else None
  }

  /** The channel keys are the decimal forms of 1, 5 and 6. */
  lemma DealChannelKeys(n: int)
    ensures IntToString(n) in DealChannelValues <==> n == 1 || n == 5 || n == 6
    ensures n == 1 ==> IntToString(n) == "1"
    ensures n == 5 ==> IntToString(n) == "5"
    ensures n == 6 ==> IntToString(n) == "6"
  {
    SmallDecimals();
    var key := IntToString(n);
    if key == "1" {
      IntToStringInjective(n, 1);
    } else if key == "5" {
      IntToStringInjective(n, 5);
    } else if key == "6" {
      IntToStringInjective(n, 6);
    }
  }

  lemma SmallDecimals()
    ensures IntToString(1) == "1" && IntToString(5) == "5" && IntToString(6) == "6"
  {
  }

  /** Numeric channels: 1 is PMP, 5 is PREF, 6 is PMPG, any other non-zero number `null`. */
  lemma DealChannelOfNumber(n: int)
    requires n != 0
    ensures DealChannel(Obj(map["deal_channel" := Num(n)]))
      == Some(if n == 1 then Str("PMP") else if n == 5 then Str("PREF") else if n == 6 then Str("PMPG") else Null)
  {
    var ext := Obj(map["deal_channel" := Num(n)]);
    assert Get(ext, "deal_channel") == Num(n);
    assert ToString(Num(n)) == IntToString(n);
    DealChannelKeys(n);
  }

  // ---------------------------------------------------------------------------
  // User syncs

  const UserSyncUrl := "//ads.pubmatic.com/AdServer/js/showad.js#PIX&kdntuid=1&p="

  datatype UserSync = UserSync(syncType: string, url: string)

  /** `encodeURIComponent(gdprConsent.consentString || '')` */
  function EncodedConsent(gdprConsent: Value): (r: string)
    ensures forall i :: 0 <= i < |r| ==> r[i] != '&' && r[i] != '#' && r[i] != '='
  {
    var consent := Get(gdprConsent, "consentString");
    EncodeUriComponent(if Truthy(consent) then ToString(consent) else "")
  }

  /** The sync URL: the publisher id, then with a consent object the `gdpr`
      flag and the encoded consent string, which cannot break out of its
      query parameter. */
  function SyncUrl(publisherId: string, gdprConsent: Value): (url: string)
    ensures !Truthy(gdprConsent) ==> url == UserSyncUrl + publisherId
    ensures Truthy(gdprConsent) ==>
      url == UserSyncUrl + publisherId + "&gdpr=" + (if Truthy(Get(gdprConsent, "gdprApplies")) then "1" else "0")
        + "&gdpr_consent=" + EncodedConsent(gdprConsent)
  {
    var url := UserSyncUrl + publisherId;
    if Truthy(gdprConsent) then
      url + "&gdpr=" + (if Truthy(Get(gdprConsent, "gdprApplies")) then "1" else "0")
      + "&gdpr_consent=" + EncodedConsent(gdprConsent)
    else url
  }

  /** A consent string of unreserved characters is sent verbatim. */
  lemma PlainConsentSentVerbatim(publisherId: string, consent: string)
    requires consent != [] && forall i :: 0 <= i < |consent| ==> IsUriUnreserved(consent[i])
    ensures SyncUrl(publisherId, Obj(map["gdprApplies" := Bool(true), "consentString" := Str(consent)]))
      == UserSyncUrl + publisherId + "&gdpr=" + "1" + "&gdpr_consent=" + consent
  {
    var gdprConsent := Obj(map["gdprApplies" := Bool(true), "consentString" := Str(consent)]);
    assert Get(gdprConsent, "gdprApplies") == Bool(true);
    assert Get(gdprConsent, "consentString") == Str(consent);
    assert EncodedConsent(gdprConsent) == consent by {
      EncodeUnreservedIdentity(consent);
    }
  }

  // ---------------------------------------------------------------------------
  // Requests

  /** The part of an impression the model keeps: `id`, `tagid` and `ext.pmZoneId`. */
  datatype Imp = Imp(id: Value, tagid: string, pmZoneId: SlotParam)

  /** The part of the OpenRTB payload the model keeps. */
  datatype OpenRtbRequest = OpenRtbRequest(imps: seq<Imp>, publisherId: string, keyVal: Option<string>)

  function SizesOf(bid: Value): Option<Value> {
    if HasOwn(bid, "sizes") then Some(Get(bid, "sizes")) else None
  }

  function PositiveOrNonZero(v: Option<int>): bool {
    v.Some? && v.value != 0
  }

  /** The check that skips a non-standard slot: adSlot, adUnit and index are
      needed, and width and height too unless the bid is for video. */
  predicate IsStandardSlot(f: AdSlotFields, video: bool) {
    f.adSlot != "" && f.adUnit != "" && f.adUnitIndex != ""
    && (video || (PositiveOrNonZero(f.width) && PositiveOrNonZero(f.height)))
  }

  /** The native parameters' own entries, listed in some order: each listed
      entry is a field, and every field is listed. */
  predicate EnumeratesFields(params: seq<(string, Value)>, fields: map<string, Value>) {
    (forall i :: 0 <= i < |params| ==> params[i].0 in fields && fields[params[i].0] == params[i].1)
    && (forall k :: k in fields ==> exists i :: 0 <= i < |params| && params[i].0 == k)
  }

  /** `nativeParams` that `_createNativeRequest` accepts: a record with a
      `sponsoredBy` entry, a `title` with a length and an `image` with sizes. */
  predicate NativeParamsValid(nativeParams: Value) {
    nativeParams.Obj?
    && "sponsoredBy" in nativeParams.fields
    && "title" in nativeParams.fields && TitleHasLength(nativeParams.fields["title"])
    && "image" in nativeParams.fields && HasSizes(nativeParams.fields["image"])
  }

  /** The required-asset check gives the same verdict whatever order the
      entries are enumerated in. */
  lemma NativeValidityOfFields(params: seq<(string, Value)>, fields: map<string, Value>)
    requires EnumeratesFields(params, fields)
    ensures HasRequiredAssets(NativeAssets(params)) <==> NativeParamsValid(Obj(fields))
  {
    NativeRequestValidity(params);
    if "sponsoredBy" in fields {
      var i :| 0 <= i < |params| && params[i].0 == "sponsoredBy";
    }
    if "title" in fields {
      var i :| 0 <= i < |params| && params[i].0 == "title";
    }
    if "image" in fields {
      var i :| 0 <= i < |params| && params[i].0 == "image";
    }
  }

  /** The slot fields `_parseAdSlot` leaves on the bid's copy. */
  function SlotFields(bid: Value): AdSlotFields {
    ParsedAdSlot(CleanSlot(Get(Get(bid, "params"), "adSlot")), SizesOf(bid))
  }

  /** The bid passes the non-standard-slot check of `spec.buildRequests`. */
  predicate KeptSlot(bid: Value) {
    IsStandardSlot(SlotFields(bid), HasOwn(Get(bid, "params"), "video"))
  }

  /** `_createImpressionObject` takes the native branch: no `params.video`, truthy `nativeParams`. */
  predicate IsNativeBid(bid: Value) {
    !HasOwn(Get(bid, "params"), "video") && Truthy(Get(bid, "nativeParams"))
  }

  /** The impression a bid contributes: none for a non-standard slot, and
      none for a native bid whose native request is invalid. */
  function ImpFor(bid: Value): Option<Imp> {
    var params := Get(bid, "params");
    if KeptSlot(bid) && !(IsNativeBid(bid) && !NativeParamsValid(Get(bid, "nativeParams"))) then
      Some(Imp(Get(bid, "bidId"), SlotFields(bid).adUnit, ParseSlotParam("pmzoneid", Get(params, "pmzoneid"))))
    else None
  }

  /** The impressions of the bids, in order. */
  function Imps(bids: seq<Value>): (r: seq<Imp>)
    ensures |r| <= |bids|
    ensures forall i :: 0 <= i < |r| ==> r[i].tagid != ""
    decreases |bids|
  {
    if bids == [] then []
    else
      var imp := ImpFor(bids[|bids| - 1]);
      Imps(bids[..|bids| - 1]) + (if imp.Some? then [imp.value] else [])
  }

  /** `conf.pubId = conf.pubId || bid.params.publisherId` over the bids with a
      standard slot, whether or not their impression is then dropped. */
  function PubId(bids: seq<Value>): Value
    decreases |bids|
  {
    if bids == [] then Undefined
    else
      var bid := bids[|bids| - 1];
      var acc := PubId(bids[..|bids| - 1]);
      if KeptSlot(bid) then (if Truthy(acc) then acc else Get(Get(bid, "params"), "publisherId")) else acc
  }

  /** How many bids with a standard slot carry a string `dctr` (`dctrArr.length`). */
  function DctrCount(bids: seq<Value>): nat
    decreases |bids|
  {
    if bids == [] then 0
    else
      var bid := bids[|bids| - 1];
      var params := Get(bid, "params");
      DctrCount(bids[..|bids| - 1])
        + (if KeptSlot(bid) && HasOwn(params, "dctr") && Get(params, "dctr").Str? then 1 else 0)
  }

  /** The `key_val` of the request: taken from the first bid only, and only
      when some kept bid carries a `dctr`. */
  function SiteKeyValue(bids: seq<Value>): Option<string> {
    if DctrCount(bids) > 0 && HasOwn(Get(bids[0], "params"), "dctr") then
      var dctr := Get(Get(bids[0], "params"), "dctr");
      if dctr.Str? && |dctr.s| > 0 then Some(DctrKeyValue(dctr.s)) else None
    else None
  }

  /** `isInvalidNativeRequest` after the loop over the bids: the verdict of the
      last native bid with a standard slot, or `flag` when there is none. */
  function NativeFlagAfter(bids: seq<Value>, flag: bool): bool
    decreases |bids|
  {
    if bids == [] then flag
    else
      var bid := bids[|bids| - 1];
      if KeptSlot(bid) && IsNativeBid(bid) then !NativeParamsValid(Get(bid, "nativeParams"))
      else NativeFlagAfter(bids[..|bids| - 1], flag)
  }

  lemma {:induction false} PubIdOfValidBids(bids: seq<Value>)
    requires forall i :: 0 <= i < |bids| ==> IsBidRequestValid(bids[i])
    ensures PubId(bids) == Undefined || PubId(bids).Str?
    ensures Imps(bids) != [] ==> PubId(bids).Str?
    decreases |bids|
  {
    if bids != [] {
      var init := bids[..|bids| - 1];
      var bid := bids[|bids| - 1];
      assert forall i :: 0 <= i < |init| ==> init[i] == bids[i];
      PubIdOfValidBids(init);
      assert IsBidRequestValid(bid);
      if KeptSlot(bid) {
        assert Get(Get(bid, "params"), "publisherId").Str?;
      }
    }
  }

  /** Every `dctr` counted comes from a distinct bid with a standard slot that carries one. */
  lemma {:induction false} DctrCountBounded(bids: seq<Value>)
    ensures DctrCount(bids) <= |bids|
    ensures DctrCount(bids) > 0 ==>
      exists i :: 0 <= i < |bids| && KeptSlot(bids[i]) && HasOwn(Get(bids[i], "params"), "dctr")
    decreases |bids|
  {
    if bids != [] {
      var init := bids[..|bids| - 1];
      DctrCountBounded(init);
      if DctrCount(init) > 0 {
        var i :| 0 <= i < |init| && KeptSlot(init[i]) && HasOwn(Get(init[i], "params"), "dctr");
        assert bids[i] == init[i];
      }
    }
  }

  /** A batch of native bids whose native requests all miss a required asset
      yields no impression, so nothing is sent. */
  lemma {:induction false} InvalidNativeBidsSendNothing(bids: seq<Value>)
    requires forall i :: 0 <= i < |bids| ==> IsNativeBid(bids[i]) && !NativeParamsValid(Get(bids[i], "nativeParams"))
    ensures Imps(bids) == []
    decreases |bids|
  {
    if bids != [] {
      var init := bids[..|bids| - 1];
      assert forall i :: 0 <= i < |init| ==> init[i] == bids[i];
      InvalidNativeBidsSendNothing(init);
    }
  }

  /** One more bid extends the impressions, the publisher id, the `dctr` count
      and the native flag by that bid alone. */
  lemma BuildStep(bids: seq<Value>, i: nat, flag: bool)
    requires i < |bids|
    ensures var bid := bids[i]; var params := Get(bid, "params"); var imp := ImpFor(bid);
      Imps(bids[..i + 1]) == Imps(bids[..i]) + (if imp.Some? then [imp.value] else [])
      && PubId(bids[..i + 1]) == (if KeptSlot(bid) then
           (if Truthy(PubId(bids[..i])) then PubId(bids[..i]) else Get(params, "publisherId"))
         else PubId(bids[..i]))
      && DctrCount(bids[..i + 1]) == DctrCount(bids[..i])
           + (if KeptSlot(bid) && HasOwn(params, "dctr") && Get(params, "dctr").Str? then 1 else 0)
      && NativeFlagAfter(bids[..i + 1], flag) == (if KeptSlot(bid) && IsNativeBid(bid) then
           !NativeParamsValid(Get(bid, "nativeParams")) else NativeFlagAfter(bids[..i], flag))
  {
    assert bids[..i + 1][..i] == bids[..i];
  }

  /** The adapter's module state: `publisherId` and `isInvalidNativeRequest`. */
  class PubMaticAdapter {
    /** The trimmed publisher id of the last request built; the number `0` at first. */
    var publisherId: string
    /** Set by each native request built: whether a required asset was missing. */
    var isInvalidNativeRequest: bool

    constructor ()
      ensures publisherId == "0" && !isInvalidNativeRequest
    {
      publisherId := "0";
      isInvalidNativeRequest := false;
    }

    /** The second loop of `_createNativeRequest`: how many required ids occur among the assets. */
    static method CountRequiredAssets(assets: seq<NativeAsset>) returns (present: nat)
      ensures present == CountPresent(RequiredAssetIds, assets)
      ensures present == |RequiredAssetIds| <==> HasRequiredAssets(assets)
    {
      present := 0;
      var r := 0;
      while r < |RequiredAssetIds|
        invariant 0 <= r <= |RequiredAssetIds|
        invariant present == CountPresent(RequiredAssetIds[..r], assets)
      {
        var id := RequiredAssetIds[r];
        assert RequiredAssetIds[..r + 1][..r] == RequiredAssetIds[..r];
        var i := 0;
        while i < |assets|
          invariant 0 <= i <= |assets|
          invariant forall j :: 0 <= j < i ==> assets[j].id != id
          invariant present == CountPresent(RequiredAssetIds[..r], assets)
        {
          if id == assets[i].id {
            present := present + 1;
            break;
          }
          i := i + 1;
        }
        r := r + 1;
      }
      assert RequiredAssetIds[..r] == RequiredAssetIds;
      CountPresentRequired(assets);
    }

    /** `_createNativeRequest(params)`: one asset per recognised key, in order,
        then the required-asset check. */
    method CreateNativeRequest(params: seq<(string, Value)>) returns (assets: seq<NativeAsset>)
      modifies this`isInvalidNativeRequest
      ensures assets == NativeAssets(params)
      ensures isInvalidNativeRequest <==> !HasRequiredAssets(assets)
    {
      assets := [];
      var k := 0;
      while k < |params|
        invariant 0 <= k <= |params|
        invariant assets == NativeAssets(params[..k])
      {
        var key := params[k].0;
        var assetObj := AssetFor(key, params[k].1);
        if assetObj.Some? {
          assets := assets + [assetObj.value];
        }
        assert params[..k + 1][..k] == params[..k];
        k := k + 1;
      }
      assert params[..k] == params;
      var present := CountRequiredAssets(assets);
      isInvalidNativeRequest := present != |RequiredAssetIds|;
    }

    /** `spec.getUserSyncs`: an iframe sync when iframe syncing is enabled, nothing otherwise. */
    function GetUserSyncs(iframeEnabled: Value, gdprConsent: Value): (r: Option<UserSync>)
      reads this
      ensures r.Some? <==> Truthy(iframeEnabled)
      ensures r.Some? ==> r.value.syncType == "iframe" && r.value.url == SyncUrl(publisherId, gdprConsent)
    {
      if Truthy(iframeEnabled) then Some(UserSync("iframe", SyncUrl(publisherId, gdprConsent))) else None
    }

    /** The own keys of a `nativeParams` record, in the order `for (var key in params)` visits them. */
    static method NativeParamEntries(fields: map<string, Value>) returns (params: seq<(string, Value)>)
      ensures EnumeratesFields(params, fields)
    {
      params := [];
      var rest := fields.Keys;
      while rest != {}
        invariant rest <= fields.Keys
        invariant forall i :: 0 <= i < |params| ==> params[i].0 in fields && fields[params[i].0] == params[i].1
        invariant forall k :: k in fields && k !in rest ==> exists i :: 0 <= i < |params| && params[i].0 == k
        decreases rest
      {
        var k :| k in rest;
        ghost var before := params;
        params := params + [(k, fields[k])];
        assert forall i :: 0 <= i < |before| ==> params[i] == before[i];
        assert params[|params| - 1].0 == k;
        rest := rest - {k};
      }
    }

    /** The impression one bid contributes: a fresh copy of its slot fields
        is parsed by `_parseAdSlot` and checked for a standard slot; then
        `_createImpressionObject` builds the native request of a native bid
        and returns nothing when that request is invalid. */
    method SlotImp(bid: Value) returns (imp: Option<Imp>)
      modifies this`isInvalidNativeRequest
      ensures imp == ImpFor(bid)
      ensures isInvalidNativeRequest == if KeptSlot(bid) && IsNativeBid(bid)
        then !NativeParamsValid(Get(bid, "nativeParams")) else old(isInvalidNativeRequest)
    {
      var params := Get(bid, "params");
      var slotBid := new SlotBid(Get(params, "adSlot"), SizesOf(bid));
      slotBid.ParseAdSlot();
      var f := AdSlotFields(if slotBid.adSlot.Str? then slotBid.adSlot.s else "", slotBid.adUnit,
        slotBid.adUnitIndex, slotBid.width, slotBid.height, slotBid.sizes);
      assert f == SlotFields(bid);
      if !IsStandardSlot(f, HasOwn(params, "video")) {
        return None;
      }
      var native := false;
      if !HasOwn(params, "video") && Truthy(Get(bid, "nativeParams")) {
        native := true;
        var nativeParams := Get(bid, "nativeParams");
        var entries: seq<(string, Value)> := [];
        if nativeParams.Obj? {
          entries := NativeParamEntries(nativeParams.fields);
          NativeValidityOfFields(entries, nativeParams.fields);
        }
        var assets := CreateNativeRequest(entries);
      }
      if isInvalidNativeRequest && native {
        return None;
      }
      imp := Some(Imp(Get(bid, "bidId"), slotBid.adUnit, ParseSlotParam("pmzoneid", Get(params, "pmzoneid"))));
    }

    /** The loop of `spec.buildRequests` over the bids: the impressions,
        the publisher id and the number of `dctr` strings, with the native
        flag left by the last native bid. */
    method CollectImps(validBidRequests: seq<Value>) returns (imps: seq<Imp>, pubId: Value, dctrCount: nat)
      modifies this`isInvalidNativeRequest
      ensures imps == Imps(validBidRequests)
      ensures pubId == PubId(validBidRequests)
      ensures dctrCount == DctrCount(validBidRequests)
      ensures isInvalidNativeRequest == NativeFlagAfter(validBidRequests, old(isInvalidNativeRequest))
    {
      ghost var flag := isInvalidNativeRequest;
      imps := [];
      pubId := Undefined;
      dctrCount := 0;
      var i := 0;
      while i < |validBidRequests|
        invariant 0 <= i <= |validBidRequests|
        invariant imps == Imps(validBidRequests[..i])
        invariant pubId == PubId(validBidRequests[..i])
        invariant dctrCount == DctrCount(validBidRequests[..i])
        invariant isInvalidNativeRequest == NativeFlagAfter(validBidRequests[..i], old(isInvalidNativeRequest))
      {
        imps, pubId, dctrCount := AddBid(validBidRequests, i, imps, pubId, dctrCount, flag);
        i := i + 1;
      }
      assert validBidRequests[..i] == validBidRequests;
    }

    /** One turn of the loop of `spec.buildRequests`: the bid at `i` is
        parsed and, when its slot is standard, counted and offered to
        `_createImpressionObject`. */
    method AddBid(bids: seq<Value>, i: nat, imps: seq<Imp>, pubId: Value, dctrCount: nat, ghost flag: bool)
      returns (imps': seq<Imp>, pubId': Value, dctrCount': nat)
      requires i < |bids|
      requires imps == Imps(bids[..i]) && pubId == PubId(bids[..i]) && dctrCount == DctrCount(bids[..i])
      requires isInvalidNativeRequest == NativeFlagAfter(bids[..i], flag)
      modifies this`isInvalidNativeRequest
      ensures imps' == Imps(bids[..i + 1]) && pubId' == PubId(bids[..i + 1]) && dctrCount' == DctrCount(bids[..i + 1])
      ensures isInvalidNativeRequest == NativeFlagAfter(bids[..i + 1], flag)
    {
      var bid := bids[i];
      var params := Get(bid, "params");
      BuildStep(bids, i, flag);
      imps', pubId', dctrCount' := imps, pubId, dctrCount;
      if KeptSlot(bid) {
        pubId' := if Truthy(pubId) then pubId else Get(params, "publisherId");
        if HasOwn(params, "dctr") && Get(params, "dctr").Str? {
          dctrCount' := dctrCount + 1;
        }
      }
      var imp := SlotImp(bid);
      if imp.Some? {
        imps' := imps + [imp.value];
      }
    }

    /** The part of `spec.buildRequests` the model keeps: parse each bid's
        slot, skip non-standard slots, collect the impressions, pick the
        publisher id and the `dctr` key-values. Nothing is sent, and
        `publisherId` is unchanged, when no impression is left. */
    method BuildRequests(validBidRequests: seq<Value>) returns (request: Option<OpenRtbRequest>)
      requires forall i :: 0 <= i < |validBidRequests| ==> IsBidRequestValid(validBidRequests[i])
      modifies this`publisherId, this`isInvalidNativeRequest
      ensures isInvalidNativeRequest == NativeFlagAfter(validBidRequests, old(isInvalidNativeRequest))
      ensures Imps(validBidRequests) == [] ==> request.None? && publisherId == old(publisherId)
      ensures Imps(validBidRequests) != [] ==>
        PubId(validBidRequests).Str?
        && publisherId == Trim(PubId(validBidRequests).s)
        && request == Some(OpenRtbRequest(Imps(validBidRequests), publisherId, SiteKeyValue(validBidRequests)))
    {
      var imps, pubId, dctrCount := CollectImps(validBidRequests);
      if |imps| == 0 {
        return None;
      }
      PubIdOfValidBids(validBidRequests);
      publisherId := Trim(pubId.s);
      var keyVal: Option<string> := None;
      if dctrCount > 0 {
        var first := Get(validBidRequests[0], "params");
        if HasOwn(first, "dctr") {
          keyVal := NormalizeDctr(Get(first, "dctr"));
        }
      }
      request := Some(OpenRtbRequest(imps, publisherId, keyVal));
    }
  }
}
