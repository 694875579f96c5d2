/** The auto-refresh module: per GPT slot it keeps a record of renders and
    viewability, starts a countdown once the slot has been seen enough, and
    when the countdown is over and the slot is still in view asks for a new
    auction and a refresh of the slot.  Time is a parameter, a started
    countdown is returned as a value, and the refresh callback is the
    request the module would hand to it. */
module AutoRefresh {
  import opened Options
  import opened JsStrings
  import opened JsValues

  // ---------------------------------------------------------------------------
  // Configuration

  /** The per-slot settings (`DEFAULT_SLOT_CONFIG`); a `None` key is `null`. */
  datatype SlotConfig = SlotConfig(
    countdownDuration: int,
    startCountdownWithMinimumViewabilityPercentage: int,
    refreshAdSlotWithMinimumViewabilityPercentage: int,
    maximumRefreshCount: int,
    kvKeyForRefresh: Option<string>,
    kvValueForRefresh: string,
    kvKeyForRefreshCount: Option<string>)

  /** The settings a configuration object gives for a slot; `None` is an absent property. */
  datatype SlotOverrides = SlotOverrides(
    countdownDuration: Option<int>,
    startCountdownWithMinimumViewabilityPercentage: Option<int>,
    refreshAdSlotWithMinimumViewabilityPercentage: Option<int>,
    maximumRefreshCount: Option<int>,
    kvKeyForRefresh: Option<Option<string>>,
    kvValueForRefresh: Option<string>,
    kvKeyForRefreshCount: Option<Option<string>>)

  const NoSlotOverrides := SlotOverrides(None, None, None, None, None, None, None)

  /** `excludeCallbackFunction`: the built-in one, a publisher function
      (known by the slot names it returns `true` for), or a value that is not
      a function. */
  datatype ExcludeCallback = DefaultExclude | CustomExclude(excludes: set<string>) | NotAFunction

  /** `CONFIG`; a `None` list is a value that is not an array, a `None`
      `customConfig` is `undefined`. */
  datatype Config = Config(
    enabled: bool,
    slot: SlotConfig,
    excludeCallback: ExcludeCallback,
    excludeSlotIds: Option<seq<string>>,
    excludeSizes: Option<seq<string>>,
    customConfig: Option<map<string, SlotOverrides>>)

  /** The module configuration the publisher sets. */
  datatype ConfigOverrides = ConfigOverrides(
    enabled: Option<bool>,
    slot: SlotOverrides,
    excludeCallback: Option<ExcludeCallback>,
    excludeSlotIds: Option<seq<string>>,
    excludeSizes: Option<seq<string>>,
    customConfig: Option<map<string, SlotOverrides>>)

  const DefaultSlotConfig := SlotConfig(10000, 50, 50, 999, Some("autorefresh"), "1", Some("autorefreshcount"))

  /** `DEFAULT_CONFIG` */
  const DefaultConfig := Config(false, DefaultSlotConfig, DefaultExclude, None, None, None)

  function Pick<T>(o: Option<T>, d: T): T {
    if o.Some? then o.value else d
  }

  /** `mergeDeep({}, d, o)` on the slot settings. */
  function OverlaySlot(d: SlotConfig, o: SlotOverrides): SlotConfig {
    SlotConfig(
      Pick(o.countdownDuration, d.countdownDuration),
      Pick(o.startCountdownWithMinimumViewabilityPercentage, d.startCountdownWithMinimumViewabilityPercentage),
      Pick(o.refreshAdSlotWithMinimumViewabilityPercentage, d.refreshAdSlotWithMinimumViewabilityPercentage),
      Pick(o.maximumRefreshCount, d.maximumRefreshCount),
      Pick(o.kvKeyForRefresh, d.kvKeyForRefresh),
      Pick(o.kvValueForRefresh, d.kvValueForRefresh),
      Pick(o.kvKeyForRefreshCount, d.kvKeyForRefreshCount))
  }

  /** An overlay that sets nothing gives the defaults, and applying the same
      overlay twice is applying it once. */
  lemma OverlaySlotLaws(d: SlotConfig, o: SlotOverrides)
    ensures OverlaySlot(d, NoSlotOverrides) == d
    ensures OverlaySlot(OverlaySlot(d, o), o) == OverlaySlot(d, o)
  {
  }

  /** `applyModuleConfig`: `mergeDeep(CONFIG, DEFAULT_CONFIG, userConfig)`. */
  function ApplyModuleConfig(user: ConfigOverrides): (c: Config)
    ensures c.enabled <==> user.enabled == Some(true)
    ensures user.slot == NoSlotOverrides ==> c.slot == DefaultSlotConfig
    ensures user.slot.maximumRefreshCount.None? ==> c.slot.maximumRefreshCount == 999
    ensures user.excludeCallback.None? ==> c.excludeCallback == DefaultExclude
  {
    OverlaySlotLaws(DefaultSlotConfig, user.slot);
    Config(
      Pick(user.enabled, false),
      OverlaySlot(DefaultSlotConfig, user.slot),
      Pick(user.excludeCallback, DefaultExclude),
      user.excludeSlotIds,
      user.excludeSizes,
      user.customConfig)
  }

  /** `getSlotLevelConfig`: the default slot settings unless `customConfig`
      has its own entry for the slot, which then overrides them. */
  function SlotLevelConfig(c: Config, slotName: string): SlotConfig {
    if c.customConfig.None? || slotName !in c.customConfig.value then c.slot
    else OverlaySlot(c.slot, c.customConfig.value[slotName])
  }

  /** A slot without its own entry gets exactly the defaults; a slot with one
      gets each setting from its entry where the entry sets it. */
  lemma SlotLevelConfigPrecedence(c: Config, slotName: string)
    ensures (c.customConfig.None? || slotName !in c.customConfig.value) ==> SlotLevelConfig(c, slotName) == c.slot
    ensures c.customConfig.Some? && slotName in c.customConfig.value ==>
      var o := c.customConfig.value[slotName];
      var r := SlotLevelConfig(c, slotName);
      (o.countdownDuration.Some? ==> r.countdownDuration == o.countdownDuration.value)
      && (o.countdownDuration.None? ==> r.countdownDuration == c.slot.countdownDuration)
      && (o.maximumRefreshCount.Some? ==> r.maximumRefreshCount == o.maximumRefreshCount.value)
      && (o.maximumRefreshCount.None? ==> r.maximumRefreshCount == c.slot.maximumRefreshCount)
      && (o == NoSlotOverrides ==> r == c.slot)
  {
  }

  // ---------------------------------------------------------------------------
  // Slots, entries and the decisions on them

  /** A GPT slot as the module sees it: its ad unit path, its element id and
      its sizes for the current viewport. */
  datatype GptSlot = GptSlot(adUnitPath: string, elementId: string, sizes: seq<(int, int)>)

  /** A Prebid ad unit: its `code` and the rest of it, which the module only passes on. */
  datatype AdUnit = AdUnit(code: string, details: Value)

  /** `DataStore[slotName]` */
  datatype SlotEntry = SlotEntry(
    lastRenderedAt: int,
    lastVisibilityChangedAt: int,
    renderedCount: nat,
    inViewPercentage: int,
    refreshRequested: bool,
    hasCounterStarted: bool,
    counterStartedAt: int)

  /** A countdown set with `setTimeout`: when it is over, `refreshSlotIfNeeded`
      runs with the slot settings captured when it started. */
  datatype Countdown = Countdown(slotName: string, slot: GptSlot, conf: SlotConfig, delay: int)

  /** What `callbackFunction` receives. */
  datatype RefreshRequest = RefreshRequest(slotName: string, slot: GptSlot, adUnit: AdUnit, keyValues: map<string, Value>)

  /** `createDefaultDbEntry`; the two counter fields it leaves out are set by
      the render handler right after, before anything reads them. */
  function DefaultEntry(now: int): SlotEntry {
    SlotEntry(now, -1, 0, 0, false, false, -1)
  }

  /** `slotIdFunctionForCustomConfig` (the built-in one): the element id. */
  function SlotName(slot: GptSlot): string {
    slot.elementId
  }

  /** `e.width + 'x' + e.height` */
  function SizeLabel(size: (int, int)): string {
    IntToString(size.0) + "x" + IntToString(size.1)
  }

  /** Two sizes have the same `WxH` label only if they are the same size, so
      `excludeSizes` excludes exactly the sizes it lists. */
  lemma SizeLabelInjective(a: (int, int), b: (int, int))
    requires SizeLabel(a) == SizeLabel(b)
    ensures a == b
  {
    SplitSizeText(a.0, a.1);
    SplitSizeText(b.0, b.1);
    IntToStringInjective(a.0, b.0);
    IntToStringInjective(a.1, b.1);
  }

  /** Whether `excludeCallbackFunction` is a function returning `true` for the slot. */
  predicate IsExcluded(c: Config, slotName: string, slot: GptSlot) {
    match c.excludeCallback
    case NotAFunction => false
    case CustomExclude(excludes) => slotName in excludes
    case DefaultExclude =>
      (c.excludeSlotIds.Some? && slotName in c.excludeSlotIds.value)
      || (c.excludeSizes.Some? && exists i :: 0 <= i < |slot.sizes| && SizeLabel(slot.sizes[i]) in c.excludeSizes.value)
  }

  /** With the built-in exclusion, listing one of a slot's sizes excludes it. */
  lemma DefaultExclusionBySize(c: Config, slotName: string, slot: GptSlot, i: nat)
    requires c.excludeCallback == DefaultExclude && c.excludeSizes.Some?
    requires i < |slot.sizes| && SizeLabel(slot.sizes[i]) in c.excludeSizes.value
    ensures IsExcluded(c, slotName, slot)
  {
  }

  /** `isGptSlotMaxRefreshCountReached`: the first render is not a refresh, so
      the limit is reached once the refreshes so far (renders minus one) are
      at least the maximum. */
  predicate MaxRefreshCountReached(renderedCount: int, maximumRefreshCount: int) {
    renderedCount >= maximumRefreshCount + 1
  }

  /** How many of the renders numbered `1..n` are below the limit, so that
      `RenderEnded` and `VisibilityChanged` may still start a countdown after them. */
  function CountdownRenders(n: nat, maximumRefreshCount: int): nat
    decreases n
  {
    if n == 0 then 0
    else CountdownRenders(n - 1, maximumRefreshCount) + (if MaxRefreshCountReached(n, maximumRefreshCount) then 0 else 1)
  }

  /** The render budget of the limit check: once a slot's render count
      reaches the limit it stays reached as renders go on, and of the renders
      numbered `1..n` at most `maximumRefreshCount` pass the check that lets
      `RenderEnded` start a countdown. A countdown started before the limit
      can still fire after it: see `CountdownElapsed`. */
  lemma {:induction false} RefreshBudget(n: nat, maximumRefreshCount: int)
    ensures forall m :: n <= m && MaxRefreshCountReached(n, maximumRefreshCount) ==>
      MaxRefreshCountReached(m, maximumRefreshCount)
    ensures CountdownRenders(n, maximumRefreshCount) ==
      if maximumRefreshCount <= 0 then 0 else if n <= maximumRefreshCount then n else maximumRefreshCount
    decreases n
  {
    if n > 0 {
      RefreshBudget(n - 1, maximumRefreshCount);
    }
  }

  /** The guards of `refreshSlotIfNeeded` on the entry: in view enough, the
      countdown over, and no refresh already asked for. */
  predicate RefreshDue(e: SlotEntry, conf: SlotConfig, now: int) {
    e.inViewPercentage >= conf.refreshAdSlotWithMinimumViewabilityPercentage
    && now - e.counterStartedAt >= conf.countdownDuration
    && !e.refreshRequested
  }

  /** `gptSlotToPbjsAdUnitMapFunction` (the built-in one) */
  predicate MatchesSlot(slot: GptSlot, au: AdUnit) {
    au.code == slot.adUnitPath || au.code == slot.elementId
  }

  /** The index `find` stops at: the first matching ad unit. */
  function FirstMatchIndex(adUnits: seq<AdUnit>, slot: GptSlot): (r: Option<nat>)
    ensures r.Some? ==> r.value < |adUnits| && MatchesSlot(slot, adUnits[r.value])
    ensures r.Some? ==> forall j :: 0 <= j < r.value ==> !MatchesSlot(slot, adUnits[j])
    ensures r.None? ==> forall j :: 0 <= j < |adUnits| ==> !MatchesSlot(slot, adUnits[j])
    decreases |adUnits|
  {
    if adUnits == [] then None
    else if MatchesSlot(slot, adUnits[0]) then Some(0)
    else
      var rest := FirstMatchIndex(adUnits[1..], slot);
      if rest.Some? then Some(rest.value + 1) else None
  }

  /** `find(adUnits, au => gptSlotToPbjsAdUnitMapFunction(...)) || null` */
  method FindAdUnit(adUnits: seq<AdUnit>, slot: GptSlot) returns (r: Option<AdUnit>)
    ensures r.None? <==> FirstMatchIndex(adUnits, slot).None?
    ensures r.Some? ==> r.value == adUnits[FirstMatchIndex(adUnits, slot).value]
  {
    var i := 0;
    while i < |adUnits|
      invariant 0 <= i <= |adUnits|
      invariant forall j :: 0 <= j < i ==> !MatchesSlot(slot, adUnits[j])
    {
      if MatchesSlot(slot, adUnits[i]) {
        FirstMatchUnique(adUnits, slot, i);
        return Some(adUnits[i]);
      }
      i := i + 1;
    }
    return None;
  }

  lemma FirstMatchUnique(adUnits: seq<AdUnit>, slot: GptSlot, i: nat)
    requires i < |adUnits| && MatchesSlot(slot, adUnits[i])
    requires forall j :: 0 <= j < i ==> !MatchesSlot(slot, adUnits[j])
    ensures FirstMatchIndex(adUnits, slot) == Some(i)
  {
    var r := FirstMatchIndex(adUnits, slot);
    assert r.Some?;
    if r.value < i {
    } else if r.value > i {
    }
  }

  /** The targeting `refreshSlotIfNeeded` builds, as written: `null` keys
      become the property name `"null"`. */
  function KeyValuesAsWritten(conf: SlotConfig, renderedCount: nat): map<string, Value> {
    map[KeyName(conf.kvKeyForRefresh) := Str(conf.kvValueForRefresh)][KeyName(conf.kvKeyForRefreshCount) := Num(renderedCount)]
  }

  function KeyName(k: Option<string>): string {
    if k.Some? then k.value else "null"
  }

  /** The targeting as the settings describe it: a `null` key is not set. The
      refresh key carries the configured value, the count key the number of
      renders, and no other key is set. */
  function KeyValues(conf: SlotConfig, renderedCount: nat): (kv: map<string, Value>)
    ensures forall k :: k in kv <==> Some(k) == conf.kvKeyForRefresh || Some(k) == conf.kvKeyForRefreshCount
    ensures conf.kvKeyForRefreshCount.Some? ==> kv[conf.kvKeyForRefreshCount.value] == Num(renderedCount)
    ensures conf.kvKeyForRefresh.Some? && conf.kvKeyForRefresh != conf.kvKeyForRefreshCount ==>
      kv[conf.kvKeyForRefresh.value] == Str(conf.kvValueForRefresh)
  {
    var withRefresh: map<string, Value> :=
      if conf.kvKeyForRefresh.Some? then map[conf.kvKeyForRefresh.value := Str(conf.kvValueForRefresh)] else map[];
    if conf.kvKeyForRefreshCount.Some? then withRefresh[conf.kvKeyForRefreshCount.value := Num(renderedCount)] else withRefresh
  }

  /** Where both keys are set the two readings agree. */
  lemma KeyValuesAgreeWhenKeysSet(conf: SlotConfig, renderedCount: nat)
    requires conf.kvKeyForRefresh.Some? && conf.kvKeyForRefreshCount.Some?
    ensures KeyValuesAsWritten(conf, renderedCount) == KeyValues(conf, renderedCount)
  {
  }

  /** Setting `kvKeyForRefresh` to `null`, which its documentation says turns
      the key off, targets the slot with the key `"null"` instead. */
  lemma NullRefreshKeyIsStillSet(renderedCount: nat)
    ensures var conf := DefaultSlotConfig.(kvKeyForRefresh := None);
      KeyValuesAsWritten(conf, renderedCount)["null"] == Str("1")
      && "null" !in KeyValues(conf, renderedCount)
  {
  }

  // ---------------------------------------------------------------------------
  // The module state

  class AutoRefreshModule {
    /** `beforeRequestBidsHandlerAdded` */
    var handlerAdded: bool
    /** `CONFIG` */
    var config: Config
    /** `DEFAULT_SLOT_CONFIG` */
    var defaultSlotConfig: SlotConfig
    /** Whether the two GPT listeners have been added. */
    var listening: bool
    /** `DataStore` */
    var dataStore: map<string, SlotEntry>

    /** The GPT listeners are added only by an `init` that found the module
        enabled, after it fixed the default slot settings. */
    ghost predicate Valid()
      reads this
    {
      listening ==> handlerAdded && config.enabled && defaultSlotConfig == config.slot
    }

    constructor ()
      ensures !handlerAdded && !listening && dataStore == map[]
      ensures Valid()
    {
      handlerAdded := false;
      config := DefaultConfig;
      defaultSlotConfig := DefaultSlotConfig;
      listening := false;
      dataStore := map[];
    }

    /** `init`, run on `BEFORE_REQUEST_BIDS`: only the first call has an effect. */
    method Init(user: ConfigOverrides)
      requires Valid()
      modifies this`handlerAdded, this`config, this`defaultSlotConfig, this`listening
      ensures Valid()
      ensures old(handlerAdded) ==>
        (handlerAdded && config == old(config) && listening == old(listening)
         && defaultSlotConfig == old(defaultSlotConfig))
      ensures !old(handlerAdded) ==>
        (handlerAdded && config == ApplyModuleConfig(user)
         && (listening <==> user.enabled == Some(true))
         && (listening ==> defaultSlotConfig == config.slot))
    {
      if handlerAdded {
        return;
      }
      handlerAdded := true;
      config := ApplyModuleConfig(user);
      if config.enabled {
        defaultSlotConfig := config.slot;
        listening := true;
      }
    }

    /** `gptSlotRenderEndedHandler` */
    method RenderEnded(slot: GptSlot, now: int) returns (countdown: Option<Countdown>)
      requires Valid() && listening
      modifies this`dataStore
      ensures Valid()
      ensures var name := SlotName(slot);
        IsExcluded(config, name, slot) ==> dataStore == old(dataStore) && countdown.None?
      ensures var name := SlotName(slot);
        var conf := SlotLevelConfig(config, name);
        var prior := if name in old(dataStore) then old(dataStore)[name] else DefaultEntry(now);
        var starts := !MaxRefreshCountReached(prior.renderedCount + 1, conf.maximumRefreshCount)
          && conf.startCountdownWithMinimumViewabilityPercentage == 0;
        !IsExcluded(config, name, slot) ==>
          dataStore == old(dataStore)[name := SlotEntry(now, prior.lastVisibilityChangedAt,
            prior.renderedCount + 1, 0, false, starts, if starts then now else -1)]
          && countdown == (if starts then Some(Countdown(name, slot, conf, conf.countdownDuration)) else None)
    {
      var name := SlotName(slot);
      if IsExcluded(config, name, slot) {
        return None;
      }
      var entry := if name in dataStore then dataStore[name] else DefaultEntry(now);
      entry := entry.(lastRenderedAt := now);
      entry := entry.(renderedCount := entry.renderedCount + 1);
      entry := entry.(inViewPercentage := 0);
      entry := entry.(refreshRequested := false);
      entry := entry.(hasCounterStarted := false);
      entry := entry.(counterStartedAt := -1);
      dataStore := dataStore[name := entry];

      var conf := SlotLevelConfig(config, name);
      if MaxRefreshCountReached(entry.renderedCount, conf.maximumRefreshCount) {
        return None;
      }
      countdown := None;
      if conf.startCountdownWithMinimumViewabilityPercentage == 0 {
        dataStore := dataStore[name := entry.(hasCounterStarted := true, counterStartedAt := now)];
        countdown := Some(Countdown(name, slot, conf, conf.countdownDuration));
      }
    }

    /** `refreshSlotIfNeeded` on `DataStore[slotName]`. */
    method RefreshSlotIfNeeded(slotName: string, slot: GptSlot, conf: SlotConfig, now: int, adUnits: seq<AdUnit>)
      returns (request: Option<RefreshRequest>)
      requires Valid()
      modifies this`dataStore
      ensures Valid()
      ensures slotName !in old(dataStore) ==> dataStore == old(dataStore) && request.None?
      ensures slotName in old(dataStore) ==>
        var e := old(dataStore)[slotName];
        var found := FirstMatchIndex(adUnits, slot);
        if RefreshDue(e, conf, now) && found.Some? then
          dataStore == old(dataStore)[slotName := e.(refreshRequested := true)]
          && request == Some(RefreshRequest(slotName, slot, adUnits[found.value], KeyValues(conf, e.renderedCount)))
        else
          dataStore == old(dataStore) && request.None?
    {
      if slotName !in dataStore {
        return None;
      }
      var e := dataStore[slotName];
      if e.inViewPercentage < conf.refreshAdSlotWithMinimumViewabilityPercentage {
        return None;
      }
      if now - e.counterStartedAt < conf.countdownDuration {
        return None;
      }
      if e.refreshRequested {
        return None;
      }
      var adUnit := FindAdUnit(adUnits, slot);
      if adUnit.None? {
        return None;
      }
      var keyValues := KeyValues(conf, e.renderedCount);
      dataStore := dataStore[slotName := e.(refreshRequested := true)];
      request := Some(RefreshRequest(slotName, slot, adUnit.value, keyValues));
    }

    /** The `setTimeout` callback of a countdown. */
    method CountdownElapsed(c: Countdown, now: int, adUnits: seq<AdUnit>) returns (request: Option<RefreshRequest>)
      requires Valid()
      modifies this`dataStore
      ensures Valid()
      ensures c.slotName !in old(dataStore) ==> dataStore == old(dataStore) && request.None?
      ensures c.slotName in old(dataStore) ==>
        var e := old(dataStore)[c.slotName];
        var found := FirstMatchIndex(adUnits, c.slot);
        if RefreshDue(e, c.conf, now) && found.Some? then
          dataStore == old(dataStore)[c.slotName := e.(refreshRequested := true)]
          && request == Some(RefreshRequest(c.slotName, c.slot, adUnits[found.value], KeyValues(c.conf, e.renderedCount)))
        else
          dataStore == old(dataStore) && request.None?
    {
      request := RefreshSlotIfNeeded(c.slotName, c.slot, c.conf, now, adUnits);
    }

    /** `gptSlotVisibilityChangedHandler` */
    method VisibilityChanged(slot: GptSlot, inViewPercentage: int, now: int, adUnits: seq<AdUnit>)
      returns (countdown: Option<Countdown>, request: Option<RefreshRequest>)
      requires Valid() && listening
      modifies this`dataStore
      ensures Valid()
      ensures var name := SlotName(slot);
        IsExcluded(config, name, slot) || name !in old(dataStore) ==>
          dataStore == old(dataStore) && countdown.None? && request.None?
      ensures var name := SlotName(slot);
        var conf := SlotLevelConfig(config, name);
        !IsExcluded(config, name, slot) && name in old(dataStore) ==>
          var seen := old(dataStore)[name].(inViewPercentage := inViewPercentage, lastVisibilityChangedAt := now);
          if MaxRefreshCountReached(seen.renderedCount, conf.maximumRefreshCount) then
            dataStore == old(dataStore)[name := seen] && countdown.None? && request.None?
          else if !seen.hasCounterStarted then
            request.None?
            && if conf.startCountdownWithMinimumViewabilityPercentage <= inViewPercentage then
                 dataStore == old(dataStore)[name := seen.(hasCounterStarted := true, counterStartedAt := now)]
                 && countdown == Some(Countdown(name, slot, conf, conf.countdownDuration))
               else
                 dataStore == old(dataStore)[name := seen] && countdown.None?
          else
            countdown.None?
            && var found := FirstMatchIndex(adUnits, slot);
            if RefreshDue(seen, conf, now) && found.Some? then
              dataStore == old(dataStore)[name := seen.(refreshRequested := true)]
              && request == Some(RefreshRequest(name, slot, adUnits[found.value], KeyValues(conf, seen.renderedCount)))
            else
              dataStore == old(dataStore)[name := seen] && request.None?
    {
      countdown, request := None, None;
      var name := SlotName(slot);
      if IsExcluded(config, name, slot) {
        return;
      }
      if name !in dataStore {
        return;
      }
      var e := dataStore[name];
      e := e.(inViewPercentage := inViewPercentage);
      e := e.(lastVisibilityChangedAt := now);
      dataStore := dataStore[name := e];

      var conf := SlotLevelConfig(config, name);
      if MaxRefreshCountReached(e.renderedCount, conf.maximumRefreshCount) {
        return;
      }
      if !e.hasCounterStarted {
        if conf.startCountdownWithMinimumViewabilityPercentage <= e.inViewPercentage {
          dataStore := dataStore[name := e.(hasCounterStarted := true, counterStartedAt := now)];
          countdown := Some(Countdown(name, slot, conf, conf.countdownDuration));
        }
      } else {
        request := RefreshSlotIfNeeded(name, slot, conf, now, adUnits);
      }
    }
  }
}
