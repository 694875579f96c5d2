/** The AdMatic bid adapter: bid validation, supply-chain checking, size
    parsing and flattening, the request object of each bid, the lookup of a
    response's request, the host and sync-URL handling of `buildRequests`
    and the once-only iframe user sync. */
module AdMatic {
  import opened Options
  import opened JsStrings
  import opened JsValues

  /** How a call ends: with a value, or with a `TypeError` thrown by reading
      a property of `null`/`undefined` or calling a method a value lacks. */
  datatype Completion<T> = Normal(value: T) | TypeErrorThrown

  // ---------------------------------------------------------------------------
  // Validation

  /** `_validateId`: `parseInt(id) > 0`; `NaN` compares false. */
  predicate ValidateId(id: Value) {
    var n := ParseIntValue(id);
    n.Some? && n.value > 0
  }

  /** A number is a valid network id exactly when it is positive, and so is its decimal text. */
  lemma ValidateIdOfNumber(n: int)
    ensures ValidateId(Num(n)) <==> n > 0
    ensures ValidateId(Str(IntToString(n))) <==> n > 0
  {
    ParseIntOfIntToString(n);
  }

  /** `_validateString`: `typeof str == 'string'`. */
  predicate ValidateString(str: Value) {
    str.Str?
  }

  /** `spec.isBidRequestValid`: parameters present, a positive `networkId` and a string `host`. */
  function IsBidRequestValid(bid: Value): (r: bool)
    ensures r <==> (Truthy(Get(bid, "params"))
                    && (exists n :: n > 0 && ParseIntValue(Get(Get(bid, "params"), "networkId")) == Some(n))
                    && Get(Get(bid, "params"), "host").Str?)
  {
    var params := Get(bid, "params");
    var isValid := Truthy(params) && ValidateId(Get(params, "networkId")) && ValidateString(Get(params, "host"));
    assert ValidateId(Get(params, "networkId")) ==> ParseIntValue(Get(params, "networkId")) == Some(ParseIntValue(Get(params, "networkId")).value);
    isValid
  }

  // ---------------------------------------------------------------------------
  // Supply chain

  /** The fields every supply-chain node must carry. */
  const RequiredNodeFields: seq<string> := ["asi", "sid", "hp"]

  predicate NodeComplete(node: Value) {
    Truthy(Get(node, "asi")) && Truthy(Get(node, "sid")) && Truthy(Get(node, "hp"))
  }

  /** `nodes.every(node => requiredFields.every(field => node[field]))`:
      stops at the first incomplete node; reading a field of a `null` or
      `undefined` node before that throws. */
  function EveryNodeComplete(nodes: seq<Value>): (r: Completion<bool>)
    ensures r == Normal(true) <==> forall i :: 0 <= i < |nodes| ==> !IsNullish(nodes[i]) && NodeComplete(nodes[i])
    decreases |nodes|
  {
    if nodes == [] then Normal(true)
    else if IsNullish(nodes[0]) then TypeErrorThrown
    else if !NodeComplete(nodes[0]) then Normal(false)
    else
      var rest := EveryNodeComplete(nodes[1..]);
      assert forall i :: 1 <= i < |nodes| ==> nodes[i] == nodes[1..][i - 1];
      rest
  }

  /** `validateSchain`: false without `nodes`; `every` exists only on arrays. */
  function ValidateSchain(schain: Value): (r: Completion<bool>)
    ensures !Truthy(Get(schain, "nodes")) ==> r == Normal(false)
    ensures r == Normal(true) <==>
              (Get(schain, "nodes").Arr?
               && forall i :: 0 <= i < |Get(schain, "nodes").items| ==>
                    !IsNullish(Get(schain, "nodes").items[i]) && NodeComplete(Get(schain, "nodes").items[i]))
  {
    var nodes := Get(schain, "nodes");
    if !Truthy(nodes) then Normal(false)
    else if nodes.Arr? then EveryNodeComplete(nodes.items)
    else TypeErrorThrown
  }

  /** `mapSchain`: `null` for a missing or invalid chain, the chain itself otherwise. */
  function MapSchain(schain: Value): (r: Completion<Value>)
    ensures !Truthy(schain) ==> r == Normal(Null)
    ensures r.Normal? ==> r.value == Null || r.value == schain
    ensures Truthy(schain) ==> (r == Normal(schain) <==> ValidateSchain(schain) == Normal(true))
  {
    if !Truthy(schain) then Normal(Null)
    else match ValidateSchain(schain)
      case TypeErrorThrown => TypeErrorThrown
      case Normal(ok) => if ok then Normal(schain) else Normal(Null)
  }

  /** A chain is passed on exactly when every node names its `asi`, `sid` and `hp`. */
  lemma MapSchainKeepsCompleteChains(nodes: seq<Value>)
    ensures var schain := Obj(map["nodes" := Arr(nodes)]);
      (MapSchain(schain) == Normal(schain)
       <==> forall i :: 0 <= i < |nodes| ==> !IsNullish(nodes[i]) && NodeComplete(nodes[i]))
  {
  }

  // ---------------------------------------------------------------------------
  // Sizes

  /** `parseSizes(sizes)` with the identity parser: `[]` for `null` and
      `undefined`, the list itself when its first entry is a list, the value
      wrapped in a list otherwise. `map` exists only on arrays, so a record
      whose `0` field is a list throws. */
  function ParseSizes(sizes: Value): (r: Completion<seq<Value>>)
    ensures IsNullish(sizes) ==> r == Normal([])
    ensures sizes.Arr? ==> r.Normal? && (r.value == sizes.items || r.value == [sizes])
    ensures !IsNullish(sizes) && !Index(sizes, 0).Arr? ==> r == Normal([sizes])
  {
    if IsNullish(sizes) then Normal([])
    else if Index(sizes, 0).Arr? then (if sizes.Arr? then Normal(sizes.items) else TypeErrorThrown)
    else Normal([sizes])
  }

  /** A list of size pairs is kept as it is, and a single pair becomes a one-element list. */
  lemma ParseSizesOfPairs(first: seq<Value>, rest: seq<Value>, single: seq<Value>)
    requires |single| == 0 || !single[0].Arr?
    ensures ParseSizes(Arr([Arr(first)] + rest)) == Normal([Arr(first)] + rest)
    ensures ParseSizes(Arr(single)) == Normal([Arr(single)])
  {
  }

  /** Parsing the parsed list of a list again changes nothing: the result is already a list of sizes. */
  lemma ParseSizesIdempotent(sizes: Value)
    requires sizes.Arr?
    ensures ParseSizes(Arr(ParseSizes(sizes).value)) == ParseSizes(sizes)
  {
  }

  /** `parseSize(size)`: `size[0] + 'x' + size[1]`, throwing for `null` and `undefined`. */
  function ParseSize(size: Value): (r: Completion<string>)
    ensures IsNullish(size) <==> r.TypeErrorThrown?
  {
    if IsNullish(size) then TypeErrorThrown
    else Normal(ToString(Index(size, 0)) + "x" + ToString(Index(size, 1)))
  }

  /** The label of a numeric pair splits back into the two numbers. */
  lemma ParseSizeRoundTrip(w: int, h: int)
    ensures ParseSize(Arr([Num(w), Num(h)])).Normal?
    ensures var parts := Split(ParseSize(Arr([Num(w), Num(h)])).value, 'x');
      |parts| == 2 && ParseInt(parts[0]) == Some(w) && ParseInt(parts[1]) == Some(h)
  {
    SplitSizeText(w, h);
    ParseIntOfIntToString(w);
    ParseIntOfIntToString(h);
  }

  /** A size record `{w, h}`. */
  datatype SizeRecord = SizeRecord(w: Value, h: Value)

  /** `{ w: childSize[0], h: childSize[1] }` for every entry, in order; reading
      from a `null` or `undefined` entry throws. */
  function ChildSizes(children: seq<Value>): (r: Completion<seq<SizeRecord>>)
    ensures r.Normal? <==> forall i :: 0 <= i < |children| ==> !IsNullish(children[i])
    ensures r.Normal? ==>
              (|r.value| == |children|
               && forall i :: 0 <= i < |children| ==> r.value[i] == SizeRecord(Index(children[i], 0), Index(children[i], 1)))
    decreases |children|
  {
    if children == [] then Normal([])
    else
      var init := children[..|children| - 1];
      var last := children[|children| - 1];
      match ChildSizes(init)
      case TypeErrorThrown => TypeErrorThrown
      case Normal(acc) =>
        if IsNullish(last) then TypeErrorThrown
        else Normal(acc + [SizeRecord(Index(last, 0), Index(last, 1))])
  }

  /** What one list of `mediaTypesSizes` adds: its entries when it is a list
      whose first entry is a list, nothing otherwise. */
  function SizesOfList(currSize: Value): Completion<seq<SizeRecord>> {
    if currSize.Arr? && Index(currSize, 0).Arr? then ChildSizes(currSize.items) else Normal([])
  }

  /** The `reduce` over the lists, in order, stopping at the first throw. */
  function FlattenSizes(lists: seq<Value>): (r: Completion<seq<SizeRecord>>)
    decreases |lists|
  {
    if lists == [] then Normal([])
    else
      match FlattenSizes(lists[..|lists| - 1])
      case TypeErrorThrown => TypeErrorThrown
      case Normal(acc) =>
        match SizesOfList(lists[|lists| - 1])
        case TypeErrorThrown => TypeErrorThrown
        case Normal(more) => Normal(acc + more)
  }

  /** Without a throw, the flattened list is the lists' entries one after the other. */
  lemma {:induction false} FlattenSizesIsConcatenation(lists: seq<Value>, parts: seq<seq<SizeRecord>>)
    requires |parts| == |lists|
    requires forall i :: 0 <= i < |lists| ==> SizesOfList(lists[i]) == Normal(parts[i])
    ensures FlattenSizes(lists) == Normal(Concat(parts))
    decreases |lists|
  {
    if lists != [] {
      var n := |lists| - 1;
      FlattenSizesIsConcatenation(lists[..n], parts[..n]);
      assert parts[..n] + [parts[n]] == parts;
      ConcatSnoc(parts[..n], parts[n]);
    }
  }

  function Concat<T>(parts: seq<seq<T>>): seq<T>
    decreases |parts|
  {
    if parts == [] then [] else parts[0] + Concat(parts[1..])
  }

  lemma {:induction false} ConcatSnoc<T>(parts: seq<seq<T>>, last: seq<T>)
    ensures Concat(parts + [last]) == Concat(parts) + last
    decreases |parts|
  {
    if parts != [] {
      assert (parts + [last])[1..] == parts[1..] + [last];
      ConcatSnoc(parts[1..], last);
    }
  }

  /** The four lists `concatSizes` reads, in its order: banner sizes, video
      sizes, native sizes, player size. */
  function MediaTypesSizes(bid: Value): seq<Value> {
    [Path(bid, ["mediaTypes", "banner", "sizes"]), Path(bid, ["mediaTypes", "video", "sizes"]),
     Path(bid, ["mediaTypes", "native", "sizes"]), Path(bid, ["mediaTypes", "video", "playerSize"])]
  }

  /** `concatSizes(bid)`: `undefined` (`None`) unless banner sizes, video
      sizes or the player size is a list; native sizes alone do not count. */
  function ConcatSizesOf(bid: Value): (r: Completion<Option<seq<SizeRecord>>>)
    ensures var l := MediaTypesSizes(bid);
      r == Normal(None) <==> !(l[0].Arr? || l[1].Arr? || l[3].Arr?)
  {
    var l := MediaTypesSizes(bid);
    if l[0].Arr? || l[3].Arr? || l[1].Arr? then
      match FlattenSizes(l)
      case TypeErrorThrown => TypeErrorThrown
      case Normal(acc) => Normal(Some(acc))
    else Normal(None)
  }

  /** `concatSizes(bid)` as the source runs it: an accumulator pushed to list by list. */
  method ConcatSizes(bid: Value) returns (r: Completion<Option<seq<SizeRecord>>>)
    ensures r == ConcatSizesOf(bid)
  {
    var mediaTypesSizes := MediaTypesSizes(bid);
    var playerSize := mediaTypesSizes[3];
    var videoSizes := mediaTypesSizes[1];
    var bannerSizes := mediaTypesSizes[0];
    if !(bannerSizes.Arr? || playerSize.Arr? || videoSizes.Arr?) {
      return Normal(None);
    }
    var acc: seq<SizeRecord> := [];
    var k := 0;
    while k < |mediaTypesSizes|
      invariant 0 <= k <= |mediaTypesSizes|
      invariant FlattenSizes(mediaTypesSizes[..k]) == Normal(acc)
    {
      var currSize := mediaTypesSizes[k];
      var more: seq<SizeRecord> := [];
      if currSize.Arr? && Index(currSize, 0).Arr? {
        var pushed := PushChildSizes(currSize.items);
        if pushed.TypeErrorThrown? {
          FlattenSizesThrows(mediaTypesSizes, k);
          return TypeErrorThrown;
        }
        more := pushed.value;
      }
      FlattenSizesStep(mediaTypesSizes, k, acc, more);
      acc := acc + more;
      k := k + 1;
    }
    assert mediaTypesSizes[..k] == mediaTypesSizes;
    r := Normal(Some(acc));
  }

  /** One step of the `reduce`: list `k` adds what `SizesOfList` says. */
  lemma FlattenSizesStep(lists: seq<Value>, k: nat, acc: seq<SizeRecord>, more: seq<SizeRecord>)
    requires k < |lists| && FlattenSizes(lists[..k]) == Normal(acc) && SizesOfList(lists[k]) == Normal(more)
    ensures FlattenSizes(lists[..k + 1]) == Normal(acc + more)
  {
    assert lists[..k + 1][..k] == lists[..k];
  }

  /** `currSize.forEach(childSize => acc.push({ w: childSize[0], h: childSize[1] }))`. */
  method PushChildSizes(children: seq<Value>) returns (r: Completion<seq<SizeRecord>>)
    ensures r == ChildSizes(children)
  {
    var more: seq<SizeRecord> := [];
    var c := 0;
    while c < |children|
      invariant 0 <= c <= |children|
      invariant ChildSizes(children[..c]) == Normal(more)
    {
      var childSize := children[c];
      assert children[..c + 1][..c] == children[..c];
      if IsNullish(childSize) {
        ChildSizesPrefixThrows(children, c + 1);
        return TypeErrorThrown;
      }
      more := more + [SizeRecord(Index(childSize, 0), Index(childSize, 1))];
      c := c + 1;
    }
    assert children[..c] == children;
    r := Normal(more);
  }

  /** A throw on a prefix of the entries is a throw on all of them. */
  lemma ChildSizesPrefixThrows(children: seq<Value>, n: nat)
    requires n <= |children| && ChildSizes(children[..n]).TypeErrorThrown?
    ensures ChildSizes(children).TypeErrorThrown?
  {
  }

  /** A throw in list `k` is a throw of the whole `reduce`. */
  lemma {:induction false} FlattenSizesThrows(lists: seq<Value>, k: nat)
    requires k < |lists| && SizesOfList(lists[k]).TypeErrorThrown?
    ensures FlattenSizes(lists).TypeErrorThrown?
    decreases |lists|
  {
    var n := |lists| - 1;
    if k < n {
      assert lists[..n][k] == lists[k];
      FlattenSizesThrows(lists[..n], k);
    }
  }

  // ---------------------------------------------------------------------------
  // Request objects

  /** The `size` field: `undefined` (`None`) or a list of records. */
  datatype RequestObject = RequestObject(
    size: Option<seq<SizeRecord>>, mediaType: Option<string>, mediatype: Value, ext: Option<Value>, id: Value)

  /** `getBidIdParameter('bidId', bid)`: the bid id, or `''` when it is falsy. */
  function BidIdParameter(bid: Value): (r: Value)
    ensures Truthy(r) || r == Str("")
  {
    var id := Get(bid, "bidId");
    if Truthy(id) then id else Str("")
  }

  /** `buildRequestObject(bid)`: the media type assigned last wins, so native
      beats video beats banner; a native request always asks for a 1x1 size. */
  function RequestObjectOf(bid: Value): (r: Completion<RequestObject>)
    ensures r.Normal? <==> ConcatSizesOf(bid).Normal?
    ensures r.Normal? ==>
      var banner := Truthy(Path(bid, ["mediaTypes", "banner"]));
      var video := Truthy(Path(bid, ["mediaTypes", "video"]));
      var native := Truthy(Path(bid, ["mediaTypes", "native"]));
      r.value.mediaType == (if native then Some("native") else if video then Some("video")
                            else if banner then Some("banner") else None)
      && r.value.size == (if native then Some([SizeRecord(Num(1), Num(1))]) else ConcatSizesOf(bid).value)
      && r.value.id == BidIdParameter(bid)
  {
    match ConcatSizesOf(bid)
    case TypeErrorThrown => TypeErrorThrown
    case Normal(sizes) =>
      var banner := Path(bid, ["mediaTypes", "banner"]);
      var video := Path(bid, ["mediaTypes", "video"]);
      var native := Path(bid, ["mediaTypes", "native"]);
      var ext := Path(bid, ["ortb2Imp", "ext"]);
      Normal(RequestObject(
        if Truthy(native) then Some([SizeRecord(Num(1), Num(1))]) else sizes,
        if Truthy(native) then Some("native") else if Truthy(video) then Some("video")
        else if Truthy(banner) then Some("banner") else None,
        if Truthy(native) then native else if Truthy(video) then video
        else if Truthy(banner) then Obj(map[]) else Undefined,
        if Truthy(ext) then Some(ext) else None,
        BidIdParameter(bid)))
  }

  /** `buildRequestObject(bid)`, field by field as the source fills it in. */
  method BuildRequestObject(bid: Value) returns (r: Completion<RequestObject>)
    ensures r == RequestObjectOf(bid)
  {
    var sizes := ConcatSizes(bid);
    if sizes.TypeErrorThrown? {
      return TypeErrorThrown;
    }
    var size := sizes.value;
    var mediaType: Option<string> := None;
    var mediatype := Undefined;
    if Truthy(Path(bid, ["mediaTypes", "banner"])) {
      mediaType := Some("banner");
      mediatype := Obj(map[]);
    }
    if Truthy(Path(bid, ["mediaTypes", "video"])) {
      mediaType := Some("video");
      mediatype := Path(bid, ["mediaTypes", "video"]);
    }
    if Truthy(Path(bid, ["mediaTypes", "native"])) {
      mediaType := Some("native");
      size := Some([SizeRecord(Num(1), Num(1))]);
      mediatype := Path(bid, ["mediaTypes", "native"]);
    }
    var ext: Option<Value> := None;
    if Truthy(Path(bid, ["ortb2Imp", "ext"])) {
      ext := Some(Path(bid, ["ortb2Imp", "ext"]));
    }
    r := Normal(RequestObject(size, mediaType, mediatype, ext, BidIdParameter(bid)));
  }

  /** `validBidRequests.map(buildRequestObject)`, stopping at the first throw. */
  function RequestObjects(bids: seq<Value>): (r: Completion<seq<RequestObject>>)
    ensures r.Normal? ==>
              (|r.value| == |bids|
               && forall i :: 0 <= i < |bids| ==> RequestObjectOf(bids[i]) == Normal(r.value[i]))
    decreases |bids|
  {
    if bids == [] then Normal([])
    else
      var n := |bids| - 1;
      match RequestObjects(bids[..n])
      case TypeErrorThrown => TypeErrorThrown
      case Normal(acc) =>
        match RequestObjectOf(bids[n])
        case TypeErrorThrown => TypeErrorThrown
        case Normal(obj) =>
          assert forall i :: 0 <= i < n ==> bids[..n][i] == bids[i];
          Normal(acc + [obj])
  }

  // ---------------------------------------------------------------------------
  // Responses

  predicate SameId(request: Value, bid: Value) {
    StrictEquals(Get(request, "id"), Get(bid, "id"))
  }

  /** `getAssociatedBidRequest(bidRequests, bid)`: the first request with the bid's id. */
  function AssociatedBidRequest(bidRequests: seq<Value>, bid: Value): (r: Option<Value>)
    ensures r.None? <==> forall i :: 0 <= i < |bidRequests| ==> !SameId(bidRequests[i], bid)
    ensures r.Some? ==>
              exists i :: (0 <= i < |bidRequests| && bidRequests[i] == r.value
                           && SameId(bidRequests[i], bid) && forall j :: 0 <= j < i ==> !SameId(bidRequests[j], bid))
    decreases |bidRequests|
  {
    if bidRequests == [] then None
    else if SameId(bidRequests[0], bid) then Some(bidRequests[0])
    else
      var r := AssociatedBidRequest(bidRequests[1..], bid);
      assert forall i :: 1 <= i < |bidRequests| ==> bidRequests[i] == bidRequests[1..][i - 1];
      if r.Some? then
        var k :| 0 <= k < |bidRequests[1..]| && bidRequests[1..][k] == r.value
          && SameId(bidRequests[1..][k], bid) && forall j :: 0 <= j < k ==> !SameId(bidRequests[1..][j], bid);
        assert bidRequests[k + 1] == r.value;
        r
      else r
  }

  /** The `for … of` loop with its early return. */
  method GetAssociatedBidRequest(bidRequests: seq<Value>, bid: Value) returns (r: Option<Value>)
    ensures r == AssociatedBidRequest(bidRequests, bid)
  {
    var i := 0;
    while i < |bidRequests|
      invariant 0 <= i <= |bidRequests|
      invariant AssociatedBidRequest(bidRequests, bid) == AssociatedBidRequest(bidRequests[i..], bid)
    {
      var request := bidRequests[i];
      if SameId(request, bid) {
        return Some(request);
      }
      assert bidRequests[i..][1..] == bidRequests[i + 1..];
      i := i + 1;
    }
    return None;
  }

  // ---------------------------------------------------------------------------
  // Host, sync URL and consent

  /** `host.replace('https://', '').replace('http://', '').replace('/', '')`:
      each pattern removed at its first occurrence only. */
  function StripHost(host: string): string {
    ReplaceFirst(ReplaceFirst(ReplaceFirst(host, "https://", ""), "http://", ""), "/", "")
  }

  /** A bare host name is kept, and one written with a scheme or a trailing
      slash loses exactly those. */
  lemma StripHostOfUrl(name: string, scheme: string, trailing: string)
    requires '/' !in name && ':' !in name
    requires scheme == "" || scheme == "https://" || scheme == "http://"
    requires trailing == "" || trailing == "/"
    ensures StripHost(scheme + name + trailing) == name
  {
    var rest := name + trailing;
    assert scheme + name + trailing == scheme + rest;
    assert ':' !in rest;
    var afterHttps := ReplaceFirst(scheme + rest, "https://", "");
    if scheme == "https://" {
      ReplaceFirstAtStart(scheme, rest);
    } else if scheme == "http://" {
      HttpsAbsentFromHttpUrl(rest);
    } else {
      AbsentCharNoMatch(rest, "https://", ':');
    }
    assert afterHttps == (if scheme == "http://" then scheme + rest else rest);
    var afterHttp := ReplaceFirst(afterHttps, "http://", "");
    if scheme == "http://" {
      ReplaceFirstAtStart(scheme, rest);
    } else {
      AbsentCharNoMatch(rest, "http://", ':');
    }
    assert afterHttp == rest;
    if trailing == "/" {
      ReplaceFirstCharAfter(name, '/', "");
      assert name + ['/'] + "" == rest;
      assert name + "" == name;
    } else {
      AbsentCharNoMatch(name, "/", '/');
    }
  }

  /** A URL written with `http://` and no other colon does not contain `https://`. */
  lemma HttpsAbsentFromHttpUrl(rest: string)
    requires ':' !in rest
    ensures ReplaceFirst("http://" + rest, "https://", "") == "http://" + rest
  {
    var s := "http://" + rest;
    assert !MatchesAt(s, "https://", 0) by {
      assert s[4] == ':' && "https://"[4] == 's';
    }
    forall j | 1 <= j
      ensures !MatchesAt(s, "https://", j)
    {
      if j + 8 <= |s| {
        assert s[j + 5] != ':' by {
          if j + 5 >= 7 {
            assert s[j + 5] == rest[j - 2];
          } else {
            assert s[j + 5] == "http://"[6] == '/';
          }
        }
        assert s[j..j + 8][5] == s[j + 5];
        assert "https://"[5] == ':';
      }
    }
  }

  /** The request URL for a host. */
  function RequestUrl(host: string): string {
    "https://" + StripHost(host) + "/pb"
  }

  const DefaultSyncUrl := "https://static.cdn.admatic.com.tr/sync.html"

  /** The `switch` on the bidder name that picks `SYNC_URL`. */
  function SyncUrlFor(bidderName: Value): string {
    if bidderName == Str("netaddiction") then "https://static.cdn.netaddiction.tech/netaddiction/sync.html"
    else if bidderName == Str("monetixads") then "https://static.cdn.monetixads.com/monetixads/sync.html"
    else if bidderName == Str("pixad") then "https://static.cdn.pixad.com.tr/sync.html"
    else if bidderName == Str("admaticde") then "https://static.cdn.admatic.de/admaticde/sync.html"
    else if bidderName == Str("adt") then "https://static.cdn.adtarget.biz/adt/sync.html"
    else DefaultSyncUrl
  }

  /** The bidder codes with their own sync page. */
  const AliasCodes: set<string> := {"netaddiction", "monetixads", "pixad", "admaticde", "adt"}

  /** Every bidder name other than the aliases gets the default sync page. */
  lemma DefaultSyncUrlForOthers(a: Value)
    ensures SyncUrlFor(a) == DefaultSyncUrl <==> !(a.Str? && a.s in AliasCodes)
  {
  }

  /** Each alias has its own sync page, shared with no other bidder name. */
  lemma AliasSyncUrlsDistinct(a: Value, b: Value)
    requires a.Str? && a.s in AliasCodes && SyncUrlFor(a) == SyncUrlFor(b)
    ensures a == b
  {
  }

  /** `consentString.replace(/\+/g, '-').replace(/\//g, '_').replace(/=+$/, '')`. */
  function UrlSafeConsent(consent: string): (r: string)
    ensures forall i :: 0 <= i < |r| ==> r[i] != '+' && r[i] != '/'
    ensures r == [] || r[|r| - 1] != '='
    ensures |r| <= |consent|
    ensures forall i :: 0 <= i < |r| ==>
      r[i] == (if consent[i] == '+' then '-' else if consent[i] == '/' then '_' else consent[i])
    ensures forall i :: |r| <= i < |consent| ==> consent[i] == '='
    ensures r == [] || consent[|r| - 1] != '='
  {
    StripTrailing(ReplaceAllChar(ReplaceAllChar(consent, '+', '-'), '/', '_'), '=')
  }

  /** Rewriting a rewritten consent string changes nothing. */
  lemma UrlSafeConsentIdempotent(consent: string)
    ensures UrlSafeConsent(UrlSafeConsent(consent)) == UrlSafeConsent(consent)
  {
  }

  /** `regs.ext.consent` when GDPR applies: the rewritten consent string,
      `''` when there is none; `replace` exists only on strings. */
  function ConsentForRequest(consentString: Value): (r: Completion<string>)
    ensures !Truthy(consentString) ==> r == Normal("")
    ensures consentString.Str? ==> r == Normal(UrlSafeConsent(consentString.s))
    ensures Truthy(consentString) && !consentString.Str? ==> r.TypeErrorThrown?
  {
    if !Truthy(consentString) then Normal("")
    else if consentString.Str? then Normal(UrlSafeConsent(consentString.s))
    else TypeErrorThrown
  }

  // ---------------------------------------------------------------------------
  // User syncs

  datatype UserSync = UserSync(syncType: string, url: string)

  /** Whether a `getUserSyncs` call returns a sync. */
  predicate SyncsNow(hasSynced: bool, iframeEnabled: Value) {
    !hasSynced && Truthy(iframeEnabled)
  }

  /** How many syncs a run of `getUserSyncs` calls returns with no `resetUserSync` between them. */
  function SyncCount(hasSynced: bool, calls: seq<Value>): nat
    decreases |calls|
  {
    if calls == [] then 0
    else if SyncsNow(hasSynced, calls[0]) then 1 + SyncCount(true, calls[1..])
    else SyncCount(hasSynced, calls[1..])
  }

  /** Without a reset, at most one call syncs: one exactly when no sync
      happened yet and some call has iframe syncing enabled. */
  lemma {:induction false} SyncAtMostOnce(hasSynced: bool, calls: seq<Value>)
    ensures SyncCount(hasSynced, calls) <= 1
    ensures hasSynced ==> SyncCount(hasSynced, calls) == 0
    ensures SyncCount(hasSynced, calls) == 1
      <==> !hasSynced && exists i :: 0 <= i < |calls| && Truthy(calls[i])
    decreases |calls|
  {
    if calls != [] {
      SyncAtMostOnce(true, calls[1..]);
      SyncAtMostOnce(hasSynced, calls[1..]);
      if !hasSynced && exists i :: 0 <= i < |calls| && Truthy(calls[i]) {
        var i :| 0 <= i < |calls| && Truthy(calls[i]);
        if i > 0 {
          assert Truthy(calls[1..][i - 1]);
        }
      }
      if !hasSynced && exists i :: 0 <= i < |calls[1..]| && Truthy(calls[1..][i]) {
        var i :| 0 <= i < |calls[1..]| && Truthy(calls[1..][i]);
        assert Truthy(calls[i + 1]);
      }
    }
  }

  /** The request the model keeps from `spec.buildRequests`. */
  datatype ServerRequest = ServerRequest(
    url: string, imp: seq<RequestObject>, publisherId: Value, bidder: Value,
    consent: Option<string>, schain: Option<Value>)

  /** The host of a valid bid, which is a string. */
  function Host(bid: Value): string
    requires IsBidRequestValid(bid)
  {
    Get(Get(bid, "params"), "host").s
  }

  /** Whether the consent data says GDPR applies. */
  predicate GdprApplies(gdprConsent: Value) {
    Truthy(gdprConsent) && Truthy(Get(gdprConsent, "gdprApplies"))
  }

  /** `payload.regs.ext.consent`, set only when GDPR applies. */
  function ConsentOf(gdprConsent: Value): (r: Completion<Option<string>>)
    ensures r.Normal? ==> (r.value.Some? <==> GdprApplies(gdprConsent))
    ensures GdprApplies(gdprConsent) && Get(gdprConsent, "consentString").Str? ==>
              r == Normal(Some(UrlSafeConsent(Get(gdprConsent, "consentString").s)))
  {
    if GdprApplies(gdprConsent) then
      match ConsentForRequest(Get(gdprConsent, "consentString"))
      case TypeErrorThrown => TypeErrorThrown
      case Normal(c) => Normal(Some(c))
    else Normal(None)
  }

  /** `payload.schain`: set exactly when the first bid's chain is truthy and
      passes `mapSchain`; a chain whose validation throws throws here too. */
  function SchainOf(first: Value): (r: Completion<Option<Value>>)
    ensures r.Normal? && r.value.Some? ==>
              r.value.value == Get(first, "schain") && ValidateSchain(r.value.value) == Normal(true)
    ensures !Truthy(Get(first, "schain")) ==> r == Normal(None)
    ensures Truthy(Get(first, "schain")) && ValidateSchain(Get(first, "schain")) == Normal(true) ==>
              r == Normal(Some(Get(first, "schain")))
    ensures Truthy(Get(first, "schain")) ==>
              (r.TypeErrorThrown? <==> ValidateSchain(Get(first, "schain")).TypeErrorThrown?)
  {
    if Truthy(Get(first, "schain")) then
      match MapSchain(Get(first, "schain"))
      case TypeErrorThrown => TypeErrorThrown
      case Normal(s) => Normal(if Truthy(s) then Some(s) else None)
    else Normal(None)
  }

  /** The request `spec.buildRequests` sends for the bids and the consent
      data: `validBidRequests[0]` throws for an empty list; the request
      objects, the consent string and the supply chain are computed in that
      order, and the first throw ends the call. */
  function ServerRequestOf(validBidRequests: seq<Value>, gdprConsent: Value): (r: Completion<ServerRequest>)
    requires forall i :: 0 <= i < |validBidRequests| ==> IsBidRequestValid(validBidRequests[i])
    ensures validBidRequests == [] ==> r.TypeErrorThrown?
    ensures r.Normal? ==>
              (RequestObjects(validBidRequests) == Normal(r.value.imp)
               && r.value.url == "https://" + StripHost(Host(validBidRequests[0])) + "/pb"
               && r.value.publisherId == Get(Get(validBidRequests[0], "params"), "networkId")
               && (r.value.consent.Some? <==> GdprApplies(gdprConsent))
               && (r.value.schain.Some? ==>
                     r.value.schain.value == Get(validBidRequests[0], "schain")
                     && ValidateSchain(r.value.schain.value) == Normal(true)))
    ensures r.Normal? && GdprApplies(gdprConsent) && Get(gdprConsent, "consentString").Str? ==>
              r.value.consent == Some(UrlSafeConsent(Get(gdprConsent, "consentString").s))
  {
    match RequestObjects(validBidRequests)
    case TypeErrorThrown => TypeErrorThrown
    case Normal(imps) =>
      if validBidRequests == [] then TypeErrorThrown
      else
        var first := validBidRequests[0];
        match ConsentOf(gdprConsent)
        case TypeErrorThrown => TypeErrorThrown
        case Normal(consent) =>
          match SchainOf(first)
          case TypeErrorThrown => TypeErrorThrown
          case Normal(schain) =>
            Normal(ServerRequest(RequestUrl(Host(first)), imps, Get(Get(first, "params"), "networkId"),
              Get(first, "bidder"), consent, schain))
  }

  /** The request built when nothing throws. */
  lemma ServerRequestOfNormal(validBidRequests: seq<Value>, gdprConsent: Value,
                              imps: seq<RequestObject>, consent: Option<string>, schain: Option<Value>)
    requires forall i :: 0 <= i < |validBidRequests| ==> IsBidRequestValid(validBidRequests[i])
    requires validBidRequests != [] && RequestObjects(validBidRequests) == Normal(imps)
    requires ConsentOf(gdprConsent) == Normal(consent) && SchainOf(validBidRequests[0]) == Normal(schain)
    ensures ServerRequestOf(validBidRequests, gdprConsent) ==
      Normal(ServerRequest(RequestUrl(Host(validBidRequests[0])), imps,
        Get(Get(validBidRequests[0], "params"), "networkId"), Get(validBidRequests[0], "bidder"), consent, schain))
  {
  }

  /** The module state: `hasSynced` and `SYNC_URL`. */
  class AdMaticAdapter {
    var hasSynced: bool
    var syncUrl: string

    constructor ()
      ensures !hasSynced && syncUrl == ""
    {
      hasSynced := false;
      syncUrl := "";
    }

    /** `resetUserSync` */
    method ResetUserSync()
      modifies this`hasSynced
      ensures !hasSynced
    {
      hasSynced := false;
    }

    /** `spec.getUserSyncs`: one iframe sync to `SYNC_URL` plus the query
        string of the consent parameters (`None` when there are none), and
        only the first time. */
    method GetUserSyncs(iframeEnabled: Value, queryString: Option<string>) returns (sync: Option<UserSync>)
      modifies this`hasSynced
      ensures sync.Some? <==> SyncsNow(old(hasSynced), iframeEnabled)
      ensures sync.Some? ==> sync.value == UserSync("iframe", syncUrl + (if queryString.Some? then "&" + queryString.value else ""))
      ensures hasSynced == (old(hasSynced) || sync.Some?)
    {
      if !hasSynced && Truthy(iframeEnabled) {
        var params := if queryString.Some? then "&" + queryString.value else "";
        hasSynced := true;
        return Some(UserSync("iframe", syncUrl + params));
      }
      return None;
    }

    /** `spec.buildRequests`: the request objects, then the consent and supply
        chain of the first bid, then `SYNC_URL` for its bidder name and the
        URL from its host. A throw leaves `SYNC_URL` as it was. */
    method BuildRequests(validBidRequests: seq<Value>, gdprConsent: Value) returns (r: Completion<ServerRequest>)
      requires forall i :: 0 <= i < |validBidRequests| ==> IsBidRequestValid(validBidRequests[i])
      modifies this`syncUrl
      ensures r == ServerRequestOf(validBidRequests, gdprConsent)
      ensures r.Normal? ==> syncUrl == SyncUrlFor(Get(validBidRequests[0], "bidder"))
      ensures r.TypeErrorThrown? ==> syncUrl == old(syncUrl)
    {
      var bids := BuildRequestObjects(validBidRequests);
      if bids.TypeErrorThrown? {
        return TypeErrorThrown;
      }
      if |validBidRequests| == 0 {
        return TypeErrorThrown;
      }
      var first := validBidRequests[0];
      var networkId := Get(Get(first, "params"), "networkId");
      var host := Host(first);
      var bidderName := Get(first, "bidder");

      var consent: Option<string> := None;
      if GdprApplies(gdprConsent) {
        var consentStr := ConsentForRequest(Get(gdprConsent, "consentString"));
        if consentStr.TypeErrorThrown? {
          return TypeErrorThrown;
        }
        consent := Some(consentStr.value);
      }
      assert ConsentOf(gdprConsent) == Normal(consent);
      var schain: Option<Value> := None;
      if Truthy(Get(first, "schain")) {
        var mapped := MapSchain(Get(first, "schain"));
        if mapped.TypeErrorThrown? {
          return TypeErrorThrown;
        }
        if Truthy(mapped.value) {
          schain := Some(mapped.value);
        }
      }
      assert SchainOf(first) == Normal(schain);
      ServerRequestOfNormal(validBidRequests, gdprConsent, bids.value, consent, schain);
      syncUrl := SyncUrlFor(bidderName);
      r := Normal(ServerRequest(RequestUrl(host), bids.value, networkId, bidderName, consent, schain));
    }
  }

  /** `validBidRequests.map(buildRequestObject)`, one bid after the other. */
  method BuildRequestObjects(validBidRequests: seq<Value>) returns (r: Completion<seq<RequestObject>>)
    ensures r == RequestObjects(validBidRequests)
  {
    var bids: seq<RequestObject> := [];
    var i := 0;
    while i < |validBidRequests|
      invariant 0 <= i <= |validBidRequests|
      invariant RequestObjects(validBidRequests[..i]) == Normal(bids)
    {
      var obj := BuildRequestObject(validBidRequests[i]);
      assert validBidRequests[..i + 1][..i] == validBidRequests[..i];
      if obj.TypeErrorThrown? {
        RequestObjectsThrow(validBidRequests, i);
        return TypeErrorThrown;
      }
      bids := bids + [obj.value];
      i := i + 1;
    }
    assert validBidRequests[..i] == validBidRequests;
    r := Normal(bids);
  }

  /** A throw while building request `i` is a throw of the whole `map`. */
  lemma {:induction false} RequestObjectsThrow(bids: seq<Value>, i: nat)
    requires i < |bids| && RequestObjectOf(bids[i]).TypeErrorThrown?
    ensures RequestObjects(bids).TypeErrorThrown?
    decreases |bids|
  {
    var n := |bids| - 1;
    if i < n {
      assert bids[..n][i] == bids[i];
      RequestObjectsThrow(bids[..n], i);
    }
  }
}
