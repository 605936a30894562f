/** The import pipeline of `AngConfigManager` as functions of the store:
    one descriptor (`parseConfig`), a batch (`parseBatchConfig`), the
    decoding fallback (`parseConfigViaSub`, `importBatchConfig`,
    `parseCustomConfigServer`), subscription links (`parseBatchSubscription`)
    and one subscription update (`updateConfigViaSub`). */
module Importer {
  import opened Text
  import opened Profiles

  /** `R.string.toast_none_data` and `R.string.toast_incorrect_protocol`:
      Android resource identifiers, fixed at build time. Only their being
      positive and different matters to this component. */
  const ToastNoneData: int := 0x7f13_0001
  const ToastIncorrectProtocol: int := 0x7f13_0002

  /** A store after an operation, with the operation's integer result. */
  datatype Run = Run(store: Store, result: int)

  // ---------------------------------------------------------------------
  // One descriptor: parseConfig
  // ---------------------------------------------------------------------

  /** `s` carries a scheme prefix that `parseConfig` hands to the codec of `t`. */
  predicate Announces(s: string, t: ConfigType) {
    match t
    case HYSTERIA2 => IsPrefix(Scheme(HYSTERIA2), s) || IsPrefix(Hy2Scheme, s)
    case CUSTOM => false
    case HTTP => false
    case _ => IsPrefix(Scheme(t), s)
  }

  /** The codec chosen for a descriptor: the first matching prefix in the
      order VMESS, SHADOWSOCKS, SOCKS, TROJAN, VLESS, WIREGUARD, HYSTERIA2 (or
      its alias). */
  function Dispatch(s: string): (t: Option<ConfigType>)
    ensures t.Some? ==> Announces(s, t.value)
    ensures t.None? ==> forall u :: !Announces(s, u)
  {
    if IsPrefix(Scheme(VMESS), s) then Some(VMESS)
    else if IsPrefix(Scheme(SHADOWSOCKS), s) then Some(SHADOWSOCKS)
    else if IsPrefix(Scheme(SOCKS), s) then Some(SOCKS)
    else if IsPrefix(Scheme(TROJAN), s) then Some(TROJAN)
    else if IsPrefix(Scheme(VLESS), s) then Some(VLESS)
    else if IsPrefix(Scheme(WIREGUARD), s) then Some(WIREGUARD)
    else if IsPrefix(Scheme(HYSTERIA2), s) || IsPrefix(Hy2Scheme, s) then Some(HYSTERIA2)
    else None
  }

  /** The fates of one descriptor in `parseConfig`. */
  datatype Outcome =
    | NoneData            // null or empty input
    | IncorrectProtocol   // no known prefix, or the codec gave null
    | Failed              // the codec threw
    | Filtered            // the subscription filter rejected the remarks
    | Imported(record: Profile)

  /** The status code `parseConfig` returns for each fate. */
  function StatusOf(o: Outcome): (code: int)
    ensures code == 0 <==> o.Imported?
    ensures o.Failed? || o.Filtered? ==> code == -1
  {
    match o
    case NoneData => ToastNoneData
    case IncorrectProtocol => ToastIncorrectProtocol
    case Failed => -1
    case Filtered => -1
    case Imported(_) => 0
  }

  /** The filter is consulted only when it is present and non-empty and the
      decoded remarks are non-empty. */
  predicate FilterApplies(subItem: Option<SubscriptionItem>, c: Profile) {
    subItem.Some? && subItem.value.filter.Some? && subItem.value.filter.value != "" && c.remarks != ""
  }

  /** What `parseConfig` decides about one descriptor; this does not depend
      on the store. An accepted profile is stamped with `subid`. */
  function Classify(env: Env, str: Option<string>, subid: string, subItem: Option<SubscriptionItem>): (o: Outcome)
    ensures str.None? || str.value == "" ==> o == NoneData
    ensures str.Some? && str.value != "" && Dispatch(str.value).None? ==> o == IncorrectProtocol
    ensures o.Imported? ==> o.record.subscriptionId == subid
  {
    if str.None? || str.value == "" then NoneData
    else
      match Dispatch(str.value)
      case None => IncorrectProtocol
      case Some(t) =>
        match env.parse(t, str.value)
        case NoConfig => IncorrectProtocol
        case Threw => Failed
        case Decoded(c) =>
          if FilterApplies(subItem, c) && !env.containsMatchIn(subItem.value.filter.value, c.remarks) then Filtered
          else Imported(c.(subscriptionId := subid))
  }

  /** The new record's host and port equal the pre-batch snapshot's. */
  predicate SameEndpoint(rec: Profile, removed: Option<Profile>) {
    removed.Some? && rec.server == removed.value.server && rec.serverPort == removed.value.serverPort
  }

  /** Persist `rec` under a fresh guid and move the selection to it when it
      stands in for the snapshot. */
  function Persist(st: Store, rec: Profile, removed: Option<Profile>): (r: Run)
    ensures Valid(st) ==> GuidOf(st.nextGuid) !in st.profiles && Valid(r.store)
    ensures Valid(st) ==> |r.store.profiles| == |st.profiles| + 1
    ensures r.store.selected != st.selected ==>
      SameEndpoint(rec, removed) && r.store.selected in r.store.profiles && r.store.profiles[r.store.selected] == rec
  {
    var g := GuidOf(st.nextGuid);
    Run(st.(profiles := st.profiles[g := rec],
            selected := if SameEndpoint(rec, removed) then g else st.selected,
            nextGuid := st.nextGuid + 1), 0)
  }

  /** `parseConfig`: status 0 exactly when the descriptor is imported; every
      other status leaves the store as it was. */
  function ParseConfig(env: Env, st: Store, str: Option<string>, subid: string,
                       subItem: Option<SubscriptionItem>, removed: Option<Profile>): (r: Run)
    ensures r.result == 0 <==> Classify(env, str, subid, subItem).Imported?
    ensures r.result == StatusOf(Classify(env, str, subid, subItem))
    ensures r.result != 0 ==> r.store == st
    ensures r.store.nextGuid == st.nextGuid + (if r.result == 0 then 1 else 0)
    ensures Valid(st) ==> Valid(r.store)
    ensures r.store.subscriptions == st.subscriptions
    ensures r.store.subscriptionImports == st.subscriptionImports
    ensures r.store.updateAllCalls == st.updateAllCalls
  {
    var o := Classify(env, str, subid, subItem);
    if o.Imported? then Persist(st, o.record, removed) else Run(st, StatusOf(o))
  }

  // ---------------------------------------------------------------------
  // A batch: parseBatchConfig
  // ---------------------------------------------------------------------

  /** The order in which a batch feeds its lines to `parseConfig`. */
  function BatchOrder(text: string): seq<string> {
    Reversed(Distinct(Lines(text)))
  }

  /** The lines run through `parseConfig` one after the other; the result is
      the number of lines whose status was 0. */
  function RunLines(env: Env, st: Store, lines: seq<string>, subid: string,
                    subItem: Option<SubscriptionItem>, removed: Option<Profile>): (r: Run)
    ensures 0 <= r.result <= |lines|
    ensures r.store.nextGuid == st.nextGuid + r.result
    ensures r.store.subscriptions == st.subscriptions
    ensures r.store.subscriptionImports == st.subscriptionImports
    ensures r.store.updateAllCalls == st.updateAllCalls
    decreases |lines|
  {
    if lines == [] then Run(st, 0)
    else
      var before := RunLines(env, st, lines[..|lines| - 1], subid, subItem, removed);
      var step := ParseConfig(env, before.store, Some(lines[|lines| - 1]), subid, subItem, removed);
      Run(step.store, before.result + if step.result == 0 then 1 else 0)
  }

  /** The records a run of `lines` imports, in the order it imports them. */
  function Accepted(env: Env, lines: seq<string>, subid: string, subItem: Option<SubscriptionItem>): (recs: seq<Profile>)
    ensures |recs| <= |lines|
    ensures forall i :: 0 <= i < |recs| ==> recs[i].subscriptionId == subid
    decreases |lines|
  {
    if lines == [] then []
    else
      var o := Classify(env, Some(lines[|lines| - 1]), subid, subItem);
      Accepted(env, lines[..|lines| - 1], subid, subItem) + if o.Imported? then [o.record] else []
  }

  /** The records `recs` stored under consecutive guids from generator state `n0`. */
  function NewRecords(n0: nat, recs: seq<Profile>): map<string, Profile>
    decreases |recs|
  {
    if recs == [] then map[]
    else NewRecords(n0, recs[..|recs| - 1])[GuidOf(n0 + |recs| - 1) := recs[|recs| - 1]]
  }

  /** The highest index of `recs` whose record matches the snapshot. */
  function LastMatch(recs: seq<Profile>, removed: Option<Profile>): (k: Option<nat>)
    ensures k.Some? ==> k.value < |recs| && SameEndpoint(recs[k.value], removed)
    ensures k.Some? ==> forall j :: k.value < j < |recs| ==> !SameEndpoint(recs[j], removed)
    ensures k.None? ==> forall j :: 0 <= j < |recs| ==> !SameEndpoint(recs[j], removed)
    decreases |recs|
  {
    if recs == [] then None
    else if SameEndpoint(recs[|recs| - 1], removed) then Some(|recs| - 1)
    else LastMatch(recs[..|recs| - 1], removed)
  }

  /** Where a run from generator state `n0` leaves the selection `selected`
      when the `k`-th record it adds is the last one to match the snapshot
      (`None`: no record does). */
  function SelectionAfter(selected: string, n0: nat, k: Option<nat>): string {
    match k
    case Some(k) => GuidOf(n0 + k)
    case None => selected
  }

  /** The lowest index of `recs` whose record matches the snapshot. */
  function FirstMatch(recs: seq<Profile>, removed: Option<Profile>): (k: Option<nat>)
    ensures k.Some? ==> k.value < |recs| && SameEndpoint(recs[k.value], removed)
    ensures k.Some? ==> forall j :: 0 <= j < k.value ==> !SameEndpoint(recs[j], removed)
    ensures k.None? ==> forall j :: 0 <= j < |recs| ==> !SameEndpoint(recs[j], removed)
    decreases |recs|
  {
    if recs == [] then None
    else if SameEndpoint(recs[0], removed) then Some(0)
    else match FirstMatch(recs[1..], removed)
      case None => None
      case Some(k) => Some(k + 1)
  }

  /** The selected record, when it belongs to `subid`; taken only for a
      non-empty `subid` and a non-appending batch. */
  function Snapshot(st: Store, subid: string, append: bool): (snap: Option<Profile>)
    ensures snap.Some? <==>
      subid != "" && !append && st.selected in st.profiles && st.profiles[st.selected].subscriptionId == subid
    ensures snap.Some? ==> snap.value == st.profiles[st.selected]
  {
    if subid != "" && !append then
      match Lookup(st.profiles, st.selected)
      case Some(p) => if p.subscriptionId == subid then Some(p) else None
      case None => None
    else None
  }

  /** `removeServerViaSubid`: every record owned by `subid` goes. */
  function RemoveViaSubid(profiles: map<string, Profile>, subid: string): (m: map<string, Profile>)
    ensures forall g :: g in m <==> g in profiles && profiles[g].subscriptionId != subid
    ensures forall g :: g in m ==> m[g] == profiles[g]
  {
    map g | g in profiles && profiles[g].subscriptionId != subid :: profiles[g]
  }

  /** The store a batch starts its lines from. */
  function BatchBase(st: Store, subid: string, append: bool): Store {
    if !append then st.(profiles := RemoveViaSubid(st.profiles, subid)) else st
  }

  /** `parseBatchConfig`. */
  function ParseBatchConfig(env: Env, st: Store, servers: Option<string>, subid: string, append: bool): (r: Run)
    ensures servers.None? ==> r == Run(st, 0)
    ensures servers.Some? ==> 0 <= r.result <= |Distinct(Lines(servers.value))|
    ensures r.store.subscriptions == st.subscriptions
    ensures r.store.subscriptionImports == st.subscriptionImports
    ensures r.store.updateAllCalls == st.updateAllCalls
  {
    if servers.None? then Run(st, 0)
    else
      var removed := Snapshot(st, subid, append);
      var base := BatchBase(st, subid, append);
      RunLines(env, base, BatchOrder(servers.value), subid, Lookup(base.subscriptions, subid), removed)
  }

  // ---------------------------------------------------------------------
  // The decoding fallback
  // ---------------------------------------------------------------------

  /** `parseCustomConfigServer`: the first "\n"-piece, decoded, as one
      descriptor, with no filter and no snapshot. Its result is
      `parseConfig`'s status (0 on success), not a count. */
  function ParseCustomConfigServer(env: Env, st: Store, servers: Option<string>, subid: string): (r: Run)
    ensures servers.None? || servers.value == "" ==> r == Run(st, 0)
    ensures servers.Some? && servers.value != "" ==>
      r == ParseConfig(env, st, env.decode(Some(SplitNewline(servers.value)[0])), subid, None, None)
    ensures r.store.selected == st.selected
  {
    if servers.None? || servers.value == "" then Run(st, 0)
    else ParseConfig(env, st, env.decode(Some(SplitNewline(servers.value)[0])), subid, None, None)
  }

  /** `parseConfigViaSub`, and the first half of `importBatchConfig`: the
      decoded batch, else the raw batch, else the custom fallback. */
  function ResolveConfigs(env: Env, st: Store, server: Option<string>, subid: string, append: bool): (r: Run)
    ensures r.store.subscriptions == st.subscriptions
    ensures r.store.subscriptionImports == st.subscriptionImports
    ensures r.store.updateAllCalls == st.updateAllCalls
  {
    var decoded := ParseBatchConfig(env, st, env.decode(server), subid, append);
    if decoded.result > 0 then decoded
    else
      var raw := ParseBatchConfig(env, decoded.store, server, subid, append);
      if raw.result > 0 then raw
      else ParseCustomConfigServer(env, raw.store, server, subid)
  }

  // ---------------------------------------------------------------------
  // Subscription links: parseBatchSubscription
  // ---------------------------------------------------------------------

  /** The lines that pass `isValidSubUrl`, in order. */
  function SubUrls(env: Env, lines: seq<string>): (urls: seq<string>)
    ensures |urls| <= |lines|
    ensures forall i :: 0 <= i < |urls| ==> env.isValidSubUrl(urls[i]) && urls[i] in lines
    decreases |lines|
  {
    if lines == [] then []
    else SubUrls(env, lines[..|lines| - 1]) + if env.isValidSubUrl(lines[|lines| - 1]) then [lines[|lines| - 1]] else []
  }

  /** The sum of what `importUrlAsSubscription` reports for each url. */
  function SumImports(env: Env, urls: seq<string>): int
    decreases |urls|
  {
    if urls == [] then 0 else SumImports(env, urls[..|urls| - 1]) + env.importUrlAsSubscription(urls[|urls| - 1])
  }

  /** The `forEach` of `parseBatchSubscription` over `lines`. */
  function ImportLinks(env: Env, st: Store, lines: seq<string>): (r: Run)
    ensures r.result == SumImports(env, SubUrls(env, lines))
    ensures r.store == st.(subscriptionImports := st.subscriptionImports + SubUrls(env, lines))
    decreases |lines|
  {
    if lines == [] then Run(st, 0)
    else
      var before := ImportLinks(env, st, lines[..|lines| - 1]);
      var line := lines[|lines| - 1];
      assert SubUrls(env, lines) == SubUrls(env, lines[..|lines| - 1]) + if env.isValidSubUrl(line) then [line] else [];
      if env.isValidSubUrl(line) then
        Run(before.store.(subscriptionImports := before.store.subscriptionImports + [line]),
            before.result + env.importUrlAsSubscription(line))
      else
        assert SubUrls(env, lines) == SubUrls(env, lines[..|lines| - 1]);
        before
  }

  /** `parseBatchSubscription`. */
  function ParseBatchSubscription(env: Env, st: Store, servers: Option<string>): (r: Run)
    ensures servers.None? ==> r == Run(st, 0)
    ensures servers.Some? ==> r.result == SumImports(env, SubUrls(env, Distinct(Lines(servers.value))))
    ensures servers.Some? ==>
      r.store == st.(subscriptionImports := st.subscriptionImports + SubUrls(env, Distinct(Lines(servers.value))))
  {
    if servers.None? then Run(st, 0) else ImportLinks(env, st, Distinct(Lines(servers.value)))
  }

  /** The result of `importBatchConfig`: the store and the pair of counts. */
  datatype ImportResult = ImportResult(store: Store, configCount: int, subscriptionCount: int)

  /** The store after `updateConfigViaSubAll` has been called when `called`. */
  function UpdateAllWhen(st: Store, called: bool): Store {
    if called then st.(updateAllCalls := st.updateAllCalls + 1) else st
  }

  /** `importBatchConfig`. */
  function ImportBatchConfig(env: Env, st: Store, server: Option<string>, subid: string, append: bool): (r: ImportResult)
    ensures r.store.subscriptions == st.subscriptions
    ensures r.store.updateAllCalls == st.updateAllCalls + (if r.subscriptionCount > 0 then 1 else 0)
  {
    var configs := ResolveConfigs(env, st, server, subid, append);
    var raw := ParseBatchSubscription(env, configs.store, server);
    var subs := if raw.result <= 0 then ParseBatchSubscription(env, raw.store, env.decode(server)) else raw;
    ImportResult(UpdateAllWhen(subs.store, subs.result > 0), configs.result, subs.result)
  }

  // ---------------------------------------------------------------------
  // One subscription update: updateConfigViaSub
  // ---------------------------------------------------------------------

  /** A fetch the update asks for: through the local proxy, then direct. */
  datatype FetchAttempt = ProxiedFetch(url: string) | DirectFetch(url: string)

  /** The result of `updateConfigViaSub`: the store, the count it returns,
      and the fetches it made. */
  datatype SyncResult = SyncResult(store: Store, count: int, fetches: seq<FetchAttempt>)

  /** The subscription passes the checks that come before any fetch. */
  predicate SyncGuardPasses(env: Env, subid: string, item: SubscriptionItem) {
    subid != "" && item.remarks != "" && item.url != "" && item.enabled && env.isValidUrl(env.idnToASCII(item.url))
  }

  /** The text a fetch yields; a failure counts as empty. */
  function TextOf(f: Fetch): string {
    match f
    case Content(t) => t
    case FetchFailed => ""
  }

  /** The request url: the ASCII form of the subscription url with the
      device identifier appended as a query parameter. */
  function RequestUrl(env: Env, item: SubscriptionItem, deviceId: string): string {
    env.idnToASCII(item.url) + "?deviceID=" + deviceId
  }

  /** `updateConfigViaSub` on the pair (`subid`, `item`), with the outcome of
      the proxied and of the direct fetch given. */
  function UpdateConfigViaSub(env: Env, st: Store, subid: string, item: SubscriptionItem, deviceId: string,
                              proxied: Fetch, direct: Fetch): (r: SyncResult)
    ensures |r.fetches| <= 2
    ensures r.fetches == [] <==> !SyncGuardPasses(env, subid, item)
    ensures r.fetches == [] ==> r.store == st && r.count == 0
    ensures r.store.subscriptions == st.subscriptions
    ensures r.store.subscriptionImports == st.subscriptionImports
    ensures r.store.updateAllCalls == st.updateAllCalls
  {
    if !SyncGuardPasses(env, subid, item) then SyncResult(st, 0, [])
    else
      var url := RequestUrl(env, item, deviceId);
      var first := TextOf(proxied);
      var text := if first == "" then TextOf(direct) else first;
      var fetches := if first == "" then [ProxiedFetch(url), DirectFetch(url)] else [ProxiedFetch(url)];
      if text == "" then SyncResult(st, 0, fetches)
      else
        var res := ResolveConfigs(env, st, Some(text), subid, false);
        SyncResult(res.store, res.result, fetches)
  }
}
