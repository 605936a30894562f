/** The records the importer works on, the store that holds them, and the
    collaborators it calls but that live elsewhere (protocol codecs, base64,
    regular expressions, URL checks, the subscription importer hook). */
module Profiles {
  datatype Option<+T> = None | Some(value: T)

  /** The protocol tag of a profile (`EConfigType`). */
  datatype ConfigType = VMESS | CUSTOM | SHADOWSOCKS | SOCKS | VLESS | TROJAN | WIREGUARD | HYSTERIA2 | HTTP

  /** `EConfigType.protocolScheme`: the URI scheme prefix of each tag. CUSTOM
      has none; HTTP has one but no textual encoder. */
  function Scheme(t: ConfigType): string {
    match t
    case VMESS => "vmess://"
    case CUSTOM => ""
    case SHADOWSOCKS => "ss://"
    case SOCKS => "socks://"
    case VLESS => "vless://"
    case TROJAN => "trojan://"
    case WIREGUARD => "wireguard://"
    case HYSTERIA2 => "hysteria2://"
    case HTTP => "http://"
  }

  /** The legacy alias scheme that is parsed as HYSTERIA2 (`HY2`). */
  const Hy2Scheme: string := "hy2://"

  /** A server profile (`ProfileItem`), reduced to the fields this component
      reads or writes; host and port are nullable as in the record. */
  datatype Profile = Profile(
    configType: ConfigType,
    remarks: string,
    server: Option<string>,
    serverPort: Option<string>,
    subscriptionId: string)

  /** A subscription (`SubscriptionItem`): remarks, remote URL, enabled flag
      and the optional regular expression filtering imported remarks. */
  datatype SubscriptionItem = SubscriptionItem(
    remarks: string,
    url: string,
    enabled: bool,
    filter: Option<string>)

  /** What a protocol codec's `parse` does with one descriptor: it yields a
      profile, yields null, or throws. */
  datatype Parsed = Decoded(config: Profile) | NoConfig | Threw

  /** What one subscription fetch gives: the body, or a failure (an
      exception, which the caller turns into the empty text). */
  datatype Fetch = Content(text: string) | FetchFailed

  /** The collaborators, as total functions:
      - `parse(t, s)`: the codec for `t` (`VmessFmt.parse`, ...) on `s`;
      - `toUri(t, p)`: the encoder for `t` (`VmessFmt.toUri`, ...), `None`
        when it throws;
      - `decode`: `Utils.decode`, base64 on a nullable string;
      - `containsMatchIn(pattern, input)`: `Regex(pattern).containsMatchIn(input)`,
        false also when the pattern does not compile (both give the same status);
      - `idnToASCII`, `isValidUrl`, `isValidSubUrl`: the `Utils` URL helpers;
      - `importUrlAsSubscription(url)`: the number of subscriptions it added;
        the subscription itself is not stored by the model. */
  datatype Env = Env(
    parse: (ConfigType, string) -> Parsed,
    toUri: (ConfigType, Profile) -> Option<string>,
    decode: Option<string> -> Option<string>,
    containsMatchIn: (string, string) -> bool,
    idnToASCII: string -> string,
    isValidUrl: string -> bool,
    isValidSubUrl: string -> bool,
    importUrlAsSubscription: string -> int)

  /** The persistent store as the importer sees it:
      - `profiles`: guid to profile (the server storage);
      - `selected`: the selected server's guid, "" when none;
      - `subscriptions`: subscription id to subscription;
      - `nextGuid`: the state of the fresh-guid generator;
      - `subscriptionImports`: every url handed to `importUrlAsSubscription`;
      - `updateAllCalls`: how often `updateConfigViaSubAll` was called. */
  datatype Store = Store(
    profiles: map<string, Profile>,
    selected: string,
    subscriptions: map<string, SubscriptionItem>,
    nextGuid: nat,
    subscriptionImports: seq<string>,
    updateAllCalls: nat)

  /** The guid the generator hands out in state `n`. */
  function GuidOf(n: nat): (g: string)
    ensures |g| == n + 1
  {
    seq(n + 1, _ => 'g')
  }

  /** The generator is ahead of the store: no guid it will still hand out
      is in use. */
  ghost predicate Valid(st: Store) {
    forall k: nat :: st.nextGuid <= k ==> GuidOf(k) !in st.profiles
  }

  /** Different generator states give different guids. */
  lemma GuidsDiffer(a: nat, b: nat)
    requires a != b
    ensures GuidOf(a) != GuidOf(b)
  {
    assert |GuidOf(a)| != |GuidOf(b)|;
  }

  function Lookup<K, V>(m: map<K, V>, k: K): (r: Option<V>)
    ensures r.Some? <==> k in m
    ensures r.Some? ==> r.value == m[k]
  {
    if k in m then Some(m[k]) else None
  }
}
