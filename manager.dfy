/** The object `AngConfigManager` over an in-memory store: the server
    storage, the selection, the subscriptions and the guid generator are
    fields that the operations update in place, step by step, as the Kotlin
    does. Each import operation is proved to leave the store as a function
    of module Importer describes (mostly the one of the same name), and to
    keep the generator ahead of the storage. The two hooks state their whole
    new state; the sharing operation changes nothing and returns what module
    Sharing describes. */
module Manager {
  import opened Text
  import opened Profiles
  import opened Importer
  import ImporterProps
  import Sharing

  class AngConfigManager {
    /** guid to profile (`MmkvManager`'s server storage) */
    var profiles: map<string, Profile>
    /** the selected server's guid, "" when none */
    var selected: string
    /** subscription id to subscription */
    var subscriptions: map<string, SubscriptionItem>
    /** the state of the fresh-guid generator */
    var nextGuid: nat
    /** every url handed to `importUrlAsSubscription`, in order */
    var subscriptionImports: seq<string>
    /** how often `updateConfigViaSubAll` was called */
    var updateAllCalls: nat

    /** The fields as one value. */
    function State(): Store
      reads this
    {
      Store(profiles, selected, subscriptions, nextGuid, subscriptionImports, updateAllCalls)
    }

    /** No guid the generator will still hand out is in use. */
    ghost predicate Valid()
      reads this
    {
      Profiles.Valid(State())
    }

    /** An empty server storage over the given subscriptions. */
    constructor (subs: map<string, SubscriptionItem>)
      ensures State() == Store(map[], "", subs, 0, [], 0)
      ensures Valid()
    {
      profiles := map[];
      selected := "";
      subscriptions := subs;
      nextGuid := 0;
      subscriptionImports := [];
      updateAllCalls := 0;
    }

    /** `parseConfig`. */
    method ParseConfig(env: Env, str: Option<string>, subid: string, subItem: Option<SubscriptionItem>,
                       removed: Option<Profile>) returns (status: int)
      requires Valid()
      modifies this
      ensures Run(State(), status) == Importer.ParseConfig(env, old(State()), str, subid, subItem, removed)
      ensures Valid()
    {
      if str.None? || str.value == "" {
        return ToastNoneData;
      }
      var t := Dispatch(str.value);
      if t.None? {
        return ToastIncorrectProtocol;
      }
      var parsed := env.parse(t.value, str.value);
      if parsed.NoConfig? {
        return ToastIncorrectProtocol;
      }
      if parsed.Threw? {
        return -1;
      }
      var config := parsed.config;
      if FilterApplies(subItem, config) && !env.containsMatchIn(subItem.value.filter.value, config.remarks) {
        return -1;
      }
      config := config.(subscriptionId := subid);
      var guid := GuidOf(nextGuid);
      nextGuid := nextGuid + 1;
      profiles := profiles[guid := config];
      if SameEndpoint(config, removed) {
        selected := guid;
      }
      return 0;
    }

    /** `parseBatchConfig`. */
    method ParseBatchConfig(env: Env, servers: Option<string>, subid: string, append: bool) returns (count: int)
      requires Valid()
      modifies this
      ensures Run(State(), count) == Importer.ParseBatchConfig(env, old(State()), servers, subid, append)
      ensures Valid()
    {
      if servers.None? {
        return 0;
      }
      var removed: Option<Profile> := None;
      if subid != "" && !append {
        if selected in profiles && profiles[selected].subscriptionId == subid {
          removed := Some(profiles[selected]);
        }
      }
      assert removed == Snapshot(old(State()), subid, append);
      if !append {
        profiles := RemoveViaSubid(profiles, subid);
      }
      assert State() == BatchBase(old(State()), subid, append);
      ImporterProps.BaseIsValid(old(State()), subid, append);
      var subItem := Lookup(subscriptions, subid);
      count := ParseLines(env, BatchOrder(servers.value), subid, subItem, removed);
    }

    /** The `forEach` of `parseBatchConfig`: every line through
        `parseConfig`, counting the lines with status 0. */
    method ParseLines(env: Env, lines: seq<string>, subid: string, subItem: Option<SubscriptionItem>,
                      removed: Option<Profile>) returns (count: int)
      requires Valid()
      modifies this
      ensures Run(State(), count) == RunLines(env, old(State()), lines, subid, subItem, removed)
      ensures Valid()
    {
      count := 0;
      for i := 0 to |lines|
        invariant Run(State(), count) == RunLines(env, old(State()), lines[..i], subid, subItem, removed)
        invariant Valid()
      {
        assert lines[..i + 1][..i] == lines[..i];
        assert lines[..i + 1][i] == lines[i];
        ghost var before := State();
        var status := ParseConfig(env, Some(lines[i]), subid, subItem, removed);
        assert Run(State(), status) == Importer.ParseConfig(env, before, Some(lines[i]), subid, subItem, removed);
        if status == 0 {
          count := count + 1;
        }
      }
      TakeAll(lines);
    }

    /** `parseCustomConfigServer`. */
    method ParseCustomConfigServer(env: Env, servers: Option<string>, subid: string) returns (status: int)
      requires Valid()
      modifies this
      ensures Run(State(), status) == Importer.ParseCustomConfigServer(env, old(State()), servers, subid)
      ensures Valid()
    {
      if servers.None? || servers.value == "" {
        return 0;
      }
      var server := SplitNewline(servers.value);
      var config := env.decode(Some(server[0]));
      status := ParseConfig(env, config, subid, None, None);
    }

    /** `parseConfigViaSub`: the decoded batch, else the raw batch, else the
        custom fallback. */
    method ParseConfigViaSub(env: Env, server: Option<string>, subid: string, append: bool) returns (count: int)
      requires Valid()
      modifies this
      ensures Run(State(), count) == ResolveConfigs(env, old(State()), server, subid, append)
      ensures Valid()
    {
      count := ParseBatchConfig(env, env.decode(server), subid, append);
      if count <= 0 {
        count := ParseBatchConfig(env, server, subid, append);
      }
      if count <= 0 {
        count := ParseCustomConfigServer(env, server, subid);
      }
    }

    /** The hook `importUrlAsSubscription`: records the url and reports how
        many subscriptions it added. */
    method ImportUrlAsSubscription(env: Env, url: string) returns (added: int)
      modifies this
      ensures State() == old(State()).(subscriptionImports := old(subscriptionImports) + [url])
      ensures added == env.importUrlAsSubscription(url)
    {
      subscriptionImports := subscriptionImports + [url];
      added := env.importUrlAsSubscription(url);
    }

    /** The hook `updateConfigViaSubAll`: counts the call. */
    method UpdateConfigViaSubAll()
      modifies this
      ensures State() == old(State()).(updateAllCalls := old(updateAllCalls) + 1)
    {
      updateAllCalls := updateAllCalls + 1;
    }

    /** `parseBatchSubscription`. */
    method ParseBatchSubscription(env: Env, servers: Option<string>) returns (count: int)
      requires Valid()
      modifies this
      ensures Run(State(), count) == Importer.ParseBatchSubscription(env, old(State()), servers)
      ensures Valid()
    {
      if servers.None? {
        return 0;
      }
      var lines := Distinct(Lines(servers.value));
      count := 0;
      for i := 0 to |lines|
        invariant Run(State(), count) == ImportLinks(env, old(State()), lines[..i])
      {
        assert lines[..i + 1][..i] == lines[..i];
        assert lines[..i + 1][i] == lines[i];
        var str := lines[i];
        if env.isValidSubUrl(str) {
          var added := ImportUrlAsSubscription(env, str);
          count := count + added;
        }
      }
      TakeAll(lines);
    }

    /** `importBatchConfig`: the configurations, then the subscription links
        of the raw text, else of the decoded text; update-all runs when some
        link was imported. */
    method ImportBatchConfig(env: Env, server: Option<string>, subid: string, append: bool)
      returns (count: int, countSub: int)
      requires Valid()
      modifies this
      ensures ImportResult(State(), count, countSub) == Importer.ImportBatchConfig(env, old(State()), server, subid, append)
      ensures Valid()
    {
      ghost var st0 := State();
      count := ParseConfigViaSub(env, server, subid, append);
      ghost var configs := Run(State(), count);
      assert configs == ResolveConfigs(env, st0, server, subid, append);
      countSub := ParseBatchSubscription(env, server);
      ghost var raw := Run(State(), countSub);
      assert raw == Importer.ParseBatchSubscription(env, configs.store, server);
      if countSub <= 0 {
        countSub := ParseBatchSubscription(env, env.decode(server));
      }
      ghost var subs := Run(State(), countSub);
      assert subs == if raw.result <= 0 then Importer.ParseBatchSubscription(env, raw.store, env.decode(server)) else raw;
      if countSub > 0 {
        UpdateConfigViaSubAll();
      }
      assert State() == UpdateAllWhen(subs.store, countSub > 0);
      ImporterProps.ImportBatchSteps(env, st0, server, subid, append, configs, raw, subs);
    }

    /** `updateConfigViaSub` for the pair (`subid`, `item`): `proxied` and
        `direct` are what the fetch through the local proxy and the direct
        fetch would give; `fetches` lists the fetches made. */
    method UpdateConfigViaSub(env: Env, subid: string, item: SubscriptionItem, deviceId: string,
                              proxied: Fetch, direct: Fetch) returns (count: int, fetches: seq<FetchAttempt>)
      requires Valid()
      modifies this
      ensures SyncResult(State(), count, fetches) ==
        Importer.UpdateConfigViaSub(env, old(State()), subid, item, deviceId, proxied, direct)
      ensures Valid()
    {
      if subid == "" || item.remarks == "" || item.url == "" {
        return 0, [];
      }
      if !item.enabled {
        return 0, [];
      }
      var url := env.idnToASCII(item.url);
      if !env.isValidUrl(url) {
        return 0, [];
      }
      var urlWithDeviceId := url + "?deviceID=" + deviceId;
      fetches := [ProxiedFetch(urlWithDeviceId)];
      var configText := TextOf(proxied);
      if configText == "" {
        fetches := fetches + [DirectFetch(urlWithDeviceId)];
        configText := TextOf(direct);
      }
      if configText == "" {
        return 0, fetches;
      }
      count := ParseConfigViaSub(env, Some(configText), subid, false);
    }

    /** `shareNonCustomConfigsToClipboard`: the text built for `serverList`
        and whether it goes to the clipboard. */
    method ShareNonCustomConfigsToClipboard(env: Env, serverList: seq<string>)
      returns (status: int, clipboard: Option<string>)
      ensures Sharing.ClipboardResult(status, clipboard) ==
        Sharing.ShareNonCustomConfigsToClipboard(env, profiles, serverList)
    {
      var sb := "";
      for i := 0 to |serverList|
        invariant sb == Sharing.SharedText(env, profiles, serverList[..i])
      {
        Sharing.SharedTextStep(env, profiles, serverList, i);
        var url := Sharing.ShareConfig(env, profiles, serverList[i]);
        if url != "" {
          assert sb + url + "\n" == sb + (url + "\n");
          sb := sb + url + "\n";
        } else {
          assert sb + "" == sb;
        }
      }
      TakeAll(serverList);
      if |sb| > 0 {
        clipboard := Some(sb);
      } else {
        clipboard := None;
      }
      status := 0;
    }
  }
}
