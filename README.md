# AngConfigManager: configuration import and sharing, in Dafny

This project models the import and sharing logic of V2rayNG's
`AngConfigManager`:

- `parseConfig` takes one server descriptor (`vmess://…`, `ss://…`, …) and
  picks the protocol codec by scheme prefix. It applies the subscription's
  remarks filter. On success it stamps the subscription id, stores the
  profile under a fresh guid, and moves the selection to it when it has the
  host and port of the selected server that was just deleted.
- `parseBatchConfig` optionally deletes a subscription's profiles, after
  taking a snapshot of the selected one. It then runs every distinct line of
  a text, in reverse order, through `parseConfig` and counts the successes.
- `parseConfigViaSub` and `importBatchConfig` use an ordered fallback: the
  base64-decoded batch, then the raw batch, then the first line decoded as
  one "custom" configuration (`parseCustomConfigServer`).
  `importBatchConfig` also counts subscription links
  (`parseBatchSubscription`).
- `updateConfigViaSub` checks its guards, then fetches through the proxy and,
  if that gives nothing, fetches directly.
- `shareConfig`, `share2Clipboard` and `shareNonCustomConfigsToClipboard`
  build the share strings.

The project is layered:

- **`Text`** (`text.dfy`): Kotlin's `lines()`, `split("\n")`, `distinct()`
  and `reversed()`, with their laws.
- **`Profiles`** (`profiles.dfy`): the records, the store and the
  collaborators. The collaborators are the protocol codecs, `Utils.decode`,
  the `Regex` test, the URL helpers and the `importUrlAsSubscription` hook.
  They appear as function-typed fields of `Env`. The module also defines
  the fresh-guid generator and the invariant `Valid`: no guid the generator
  will still hand out is in use.
- **`Importer`** (`importer.dfy`): each import operation as a function from
  the store to a new store and a result.
- **`ImporterProps`** (`importer_props.dfy`): what those functions
  guarantee. This covers:
  - prefix dispatch, the rejections, the filter rule and the success case of
    `parseConfig`;
  - the records, selection and deletion of a batch;
  - the fallback order and its surprises;
  - the guards and fetch order of a subscription update.
- **`Sharing`** (`sharing.dfy`): the share strings and the clipboard text,
  with their laws.
- **`Manager`** (`manager.dfy`): class `AngConfigManager`, whose fields are
  the store. Its methods mirror the Kotlin step by step: the `forEach`
  loops and the `StringBuilder` loop are `for` loops with invariants.
  - Each import method is proved to end in the state, and return the
    value, that an `Importer` function gives. Mostly that function has the
    method's name. `ParseConfigViaSub` ends where `ResolveConfigs` does,
    and the loop `ParseLines` ends where `RunLines` does.
  - The import methods require and keep `Valid`.
  - The two hooks, `ImportUrlAsSubscription` and `UpdateConfigViaSubAll`,
    have no function. Their contracts give the whole new state: one entry
    added to the link log, or one added to the update counter. Since
    neither touches the profiles or the generator, `Valid` is unaffected.
  - `ShareNonCustomConfigsToClipboard` changes no field. It returns what
    `Sharing.ShareNonCustomConfigsToClipboard` gives.

## Behaviours of `AngConfigManager` worth knowing

- **Garbage input is not `(0, 0)`.** Suppose neither batch imports
  anything. `importBatchConfig` then takes `parseCustomConfigServer`'s
  value as its configuration count (AngConfigManager.kt lines 70 and 221).
  That value is the `parseConfig` status of line 303: a positive resource
  id such as `toast_none_data` (line 83), or -1. The model uses
  placeholder constants for the ids. See
  `ImporterProps.CustomFallbackReportsStatus`.
- **The selection is not always transferred on a re-import.** Suppose the
  text decodes to something that imports nothing. The non-appending
  decoded attempt (line 65) has already taken its snapshot and deleted
  the subscription's profiles (lines 261-276). The raw attempt (line 67)
  repeats these steps. Its snapshot comes back empty, because the
  selected profile is already gone. So the selection stays on the deleted
  guid, even when the raw text holds a profile with the same host and
  port. See `ImporterProps.SnapshotLostAfterDecodedAttempt`.
- **An HTTP profile shares as `"http://"`.** The suffix for HTTP is empty
  (line 136), but its scheme is prepended (line 131). The share string is
  therefore non-empty, so `shareNonCustomConfigsToClipboard` keeps it
  (lines 169-173). It cannot be imported back. See `Sharing.ShareByType`
  and `Sharing.HttpShareIsRejected`.

## Model

| member | source | states |
|---|---|---|
| Text.Lines | V2rayNG/app/src/main/java/com/v2ray/ang/handler/AngConfigManager.kt:280 | `lines()` gives at least one line, and no line holds a '\n' or '\r' |
| Text.NormalizeBreaks | V2rayNG/app/src/main/java/com/v2ray/ang/handler/AngConfigManager.kt:280 | turning each "\r\n", and each lone '\r', into "\n" leaves no '\r' and never lengthens the text |
| Text.LinesIsSplitOfNormalized | V2rayNG/app/src/main/java/com/v2ray/ang/handler/AngConfigManager.kt:280 | `lines()` cuts at every "\n", "\r\n" and lone '\r': it is the "\n"-split of the normalized text |
| Text.SplitNewline | V2rayNG/app/src/main/java/com/v2ray/ang/handler/AngConfigManager.kt:301 | `split("\n")` gives at least one piece, and no piece holds a '\n' |
| Text.SplitJoin | V2rayNG/app/src/main/java/com/v2ray/ang/handler/AngConfigManager.kt:301 | `split("\n")` loses nothing: joining the pieces with "\n" gives the text back |
| Text.JoinSplit | V2rayNG/app/src/main/java/com/v2ray/ang/handler/AngConfigManager.kt:301 | pieces without "\n", joined and split again, come back unchanged |
| Text.LinesIsSplitWithoutCR | V2rayNG/app/src/main/java/com/v2ray/ang/handler/AngConfigManager.kt:301 | without '\r', the batch splitting (`lines()`) and the custom-config splitting (`split("\n")`) agree |
| Text.LinesAndSplitDiffer | V2rayNG/app/src/main/java/com/v2ray/ang/handler/AngConfigManager.kt:280 | with "\r\n", they differ: "a\r\nb" is the lines ["a", "b"] but the pieces ["a\r", "b"] |
| Text.Distinct | V2rayNG/app/src/main/java/com/v2ray/ang/handler/AngConfigManager.kt:281 | `distinct()` is never longer than its input; what it keeps and in which order is carried by DistinctElements and DistinctKeepsFirstOccurrenceOrder |
| Text.DistinctElements | V2rayNG/app/src/main/java/com/v2ray/ang/handler/AngConfigManager.kt:281 | `distinct()` keeps exactly the input's elements, each once |
| Text.DistinctKeepsFirstOccurrenceOrder | V2rayNG/app/src/main/java/com/v2ray/ang/handler/AngConfigManager.kt:281 | `distinct()` orders its elements by their first occurrence in the input |
| Text.Reversed | V2rayNG/app/src/main/java/com/v2ray/ang/handler/AngConfigManager.kt:282 | `reversed()` has the same length, and element i is the input's element from the end |
| Text.ReversedAppend | V2rayNG/app/src/main/java/com/v2ray/ang/handler/AngConfigManager.kt:282 | reversing a concatenation reverses and swaps its parts |
| Profiles.GuidsDiffer | V2rayNG/app/src/main/java/com/v2ray/ang/handler/AngConfigManager.kt:115 | different generator states mint different guids |
| Importer.StatusOf | V2rayNG/app/src/main/java/com/v2ray/ang/handler/AngConfigManager.kt:82-125 | the status is 0 exactly for an imported descriptor, and -1 for a codec exception or a filtered profile |
| Importer.Classify | V2rayNG/app/src/main/java/com/v2ray/ang/handler/AngConfigManager.kt:82-114 | null or empty input is `toast_none_data`; no known prefix is `toast_incorrect_protocol`; an imported profile carries `subid` |
| Importer.Dispatch | V2rayNG/app/src/main/java/com/v2ray/ang/handler/AngConfigManager.kt:86-102 | the chosen type's scheme prefixes the descriptor, and no type is chosen only when no scheme does |
| Importer.Persist | V2rayNG/app/src/main/java/com/v2ray/ang/handler/AngConfigManager.kt:114-120 | on a valid store the fresh guid is unused, one record is added and validity is kept; the selection moves only to the new record, and only when host and port equal the snapshot's |
| Importer.ParseConfig | V2rayNG/app/src/main/java/com/v2ray/ang/handler/AngConfigManager.kt:75-126 | status 0 exactly when the descriptor is imported; a nonzero status leaves the store unchanged; subscriptions and hooks are never touched |
| Importer.Snapshot | V2rayNG/app/src/main/java/com/v2ray/ang/handler/AngConfigManager.kt:261-273 | a snapshot exists exactly when `subid` is non-empty, the batch does not append, and the selected guid holds a profile of `subid`; it is that profile |
| Importer.RemoveViaSubid | V2rayNG/app/src/main/java/com/v2ray/ang/handler/AngConfigManager.kt:274-276 | deletion keeps exactly the profiles owned by another subscription, unchanged |
| Importer.RunLines | V2rayNG/app/src/main/java/com/v2ray/ang/handler/AngConfigManager.kt:280-288 | the count lies between 0 and the number of lines, the generator advances by the count, and subscriptions, link log and update counter are unchanged |
| Importer.ParseBatchConfig | V2rayNG/app/src/main/java/com/v2ray/ang/handler/AngConfigManager.kt:256-294 | null text returns 0 and changes nothing; otherwise the count is at most the number of distinct lines; subscriptions, link log and update counter are unchanged |
| Importer.ParseCustomConfigServer | V2rayNG/app/src/main/java/com/v2ray/ang/handler/AngConfigManager.kt:296-308 | null or empty text returns 0 and changes nothing; otherwise it is `parseConfig` on the decoded first "\n"-piece with no filter and no snapshot; the selection never moves |
| Importer.ResolveConfigs | V2rayNG/app/src/main/java/com/v2ray/ang/handler/AngConfigManager.kt:64-73 | the fallback leaves the subscriptions, the link log and the update counter unchanged |
| Importer.SubUrls | V2rayNG/app/src/main/java/com/v2ray/ang/handler/AngConfigManager.kt:245 | the chosen lines all pass `isValidSubUrl` and come from the input |
| ImporterProps.SubUrlsComplete | V2rayNG/app/src/main/java/com/v2ray/ang/handler/AngConfigManager.kt:244-245 | every input line that passes `isValidSubUrl` is chosen |
| ImporterProps.SubUrlsIsFilter | V2rayNG/app/src/main/java/com/v2ray/ang/handler/AngConfigManager.kt:244-245 | choosing distributes over concatenation, and a single line is chosen exactly when it is valid, so the chosen lines keep input order |
| Importer.ImportLinks | V2rayNG/app/src/main/java/com/v2ray/ang/handler/AngConfigManager.kt:242-248 | the count sums `importUrlAsSubscription` over the valid lines, and exactly those lines reach the hook, in order |
| Importer.ParseBatchSubscription | V2rayNG/app/src/main/java/com/v2ray/ang/handler/AngConfigManager.kt:235-254 | null returns 0; otherwise it scans the distinct lines of `lines()` as above; the store changes only by those urls appended to the link log (the subscription the hook creates is not modelled) |
| Importer.ImportBatchConfig | V2rayNG/app/src/main/java/com/v2ray/ang/handler/AngConfigManager.kt:215-233 | the models of the link scan and of update-all never write the subscriptions map (the hook's new subscription is represented only by its url in the link log), and the update counter grows by one exactly when the link count is positive |
| Importer.UpdateConfigViaSub | V2rayNG/app/src/main/java/com/v2ray/ang/handler/AngConfigManager.kt:13-62 | at most two fetches; none exactly when a guard fails, and then nothing changes and 0 is returned; subscriptions, link log and update counter are never touched |
| ImporterProps.AnnouncesUnique | V2rayNG/app/src/main/java/com/v2ray/ang/handler/AngConfigManager.kt:86-99 | no descriptor starts with the schemes of two protocols |
| ImporterProps.DispatchByPrefix | V2rayNG/app/src/main/java/com/v2ray/ang/handler/AngConfigManager.kt:86-102 | the codec of type t is chosen exactly when the descriptor starts with a scheme of t (including `hy2://` for HYSTERIA2) |
| ImporterProps.ParseConfigRejects | V2rayNG/app/src/main/java/com/v2ray/ang/handler/AngConfigManager.kt:82-106 | null, empty, unknown-scheme, null-parse and throwing-parse input return their codes and leave the store, selection included, unchanged |
| ImporterProps.FilterRule | V2rayNG/app/src/main/java/com/v2ray/ang/handler/AngConfigManager.kt:108-112 | a profile is filtered exactly when the filter is present and non-empty, the remarks are non-empty, and the pattern occurs nowhere in them; otherwise the subscription plays no part |
| ImporterProps.ParseConfigSuccess | V2rayNG/app/src/main/java/com/v2ray/ang/handler/AngConfigManager.kt:114-125 | on 0 exactly one profile of `subid` is added under an unused guid, and the selection moves to it exactly when host and port equal the snapshot's |
| ImporterProps.RunLinesRecords | V2rayNG/app/src/main/java/com/v2ray/ang/handler/AngConfigManager.kt:283-288 | a run counts its accepted lines and stores their profiles under consecutive new guids |
| ImporterProps.RunLinesSelection | V2rayNG/app/src/main/java/com/v2ray/ang/handler/AngConfigManager.kt:116-120 | after a run the selection is on the last added profile matching the snapshot, or unchanged without one |
| ImporterProps.BatchOrderOfText | V2rayNG/app/src/main/java/com/v2ray/ang/handler/AngConfigManager.kt:280-282 | the batch order (`BatchOrder`) holds every line of `lines()` exactly once, and a line whose first occurrence comes later is run earlier |
| ImporterProps.BatchRecords | V2rayNG/app/src/main/java/com/v2ray/ang/handler/AngConfigManager.kt:274-289 | a batch returns the number of accepted distinct lines and adds their profiles, in reverse first-occurrence order, to the store left after deletion |
| ImporterProps.BatchSelection | V2rayNG/app/src/main/java/com/v2ray/ang/handler/AngConfigManager.kt:261-289 | a batch moves the selection only to an added profile matching the snapshot taken before deletion |
| ImporterProps.BatchValid | V2rayNG/app/src/main/java/com/v2ray/ang/handler/AngConfigManager.kt:256-289 | a batch keeps the guid generator ahead of the store |
| ImporterProps.BatchReplacesSubscription | V2rayNG/app/src/main/java/com/v2ray/ang/handler/AngConfigManager.kt:274-276 | without append, every old profile of `subid` is gone, also for an empty `subid`; other profiles are kept, and all of them are kept with append; new profiles belong to `subid` |
| ImporterProps.SelectionEndsOnEarliestLine | V2rayNG/app/src/main/java/com/v2ray/ang/handler/AngConfigManager.kt:261-289 | after a re-import the selection is on the profile of the earliest accepted input line with the snapshot's host and port; without one it does not move |
| ImporterProps.BatchThenRemove | V2rayNG/app/src/main/java/com/v2ray/ang/handler/AngConfigManager.kt:274-289 | deleting `subid`'s profiles after a re-import gives what deleting them gave before it |
| ImporterProps.ReimportIsIdempotent | V2rayNG/app/src/main/java/com/v2ray/ang/handler/AngConfigManager.kt:256-289 | importing the same text for the same subscription twice gives the same count and the same set of stored profiles |
| ImporterProps.ResolveOrder | V2rayNG/app/src/main/java/com/v2ray/ang/handler/AngConfigManager.kt:64-73 | a positive decoded count wins; otherwise a positive raw count on the store the decoded attempt left; otherwise the custom fallback |
| ImporterProps.CustomFallbackReportsStatus | V2rayNG/app/src/main/java/com/v2ray/ang/handler/AngConfigManager.kt:296-307 | when both batches import nothing, the "count" is `parseConfig`'s status on the decoded first piece: 0 on import, the positive `toast_none_data` id when it decodes to nothing |
| ImporterProps.SnapshotLostAfterDecodedAttempt | V2rayNG/app/src/main/java/com/v2ray/ang/handler/AngConfigManager.kt:64-73 | if the decoded attempt imports nothing, the non-appending fallback leaves the selection where it was |
| ImporterProps.EmptyTextImportsNothing | V2rayNG/app/src/main/java/com/v2ray/ang/handler/AngConfigManager.kt:215-233 | empty text that decodes to nothing imports no configuration and no link, and does not call update-all or move the selection; appending keeps every profile, and a non-appending import deletes exactly the profiles of `subid` |
| ImporterProps.ImportBatchCounts | V2rayNG/app/src/main/java/com/v2ray/ang/handler/AngConfigManager.kt:215-233 | the pair is (fallback count, raw link count if positive, else decoded link count); update-all runs exactly when the link count is positive |
| ImporterProps.SyncGuardEarlyReturns | V2rayNG/app/src/main/java/com/v2ray/ang/handler/AngConfigManager.kt:15-30 | each early return of the guards (`SyncGuardPasses` false) gives 0, no fetch and no change: an empty subid, remarks or url, a disabled subscription, an invalid ASCII url |
| ImporterProps.UpdateFetchFallback | V2rayNG/app/src/main/java/com/v2ray/ang/handler/AngConfigManager.kt:13-57 | a failing guard returns 0 with no fetch and no change; the direct fetch happens exactly when the proxied one gave nothing; two empty bodies return 0; otherwise the body is imported without append |
| Sharing.ShareConfig | V2rayNG/app/src/main/java/com/v2ray/ang/handler/AngConfigManager.kt:128-146 | a missing guid gives ""; a non-empty share string starts with the scheme of the profile's type |
| Sharing.Share2Clipboard | V2rayNG/app/src/main/java/com/v2ray/ang/handler/AngConfigManager.kt:148-162 | the status is 0 or -1, and 0 exactly when the clipboard is written; the text written is non-empty, belongs to a stored profile and starts with its scheme |
| Sharing.SharedText | V2rayNG/app/src/main/java/com/v2ray/ang/handler/AngConfigManager.kt:164-174 | the built text is empty or ends in "\n" |
| Sharing.ShareNonCustomConfigsToClipboard | V2rayNG/app/src/main/java/com/v2ray/ang/handler/AngConfigManager.kt:164-183 | the status is 0; an empty list sets no clipboard; text handed to the clipboard is non-empty and ends in "\n" |
| Sharing.ShareByType | V2rayNG/app/src/main/java/com/v2ray/ang/handler/AngConfigManager.kt:131-141 | CUSTOM gives "", HTTP gives "http://", and other types give their scheme plus the encoder output, or "" when the encoder fails |
| Sharing.ShareRoutesBack | V2rayNG/app/src/main/java/com/v2ray/ang/handler/AngConfigManager.kt:131-141 | `parseConfig` sends the share string of an encodable profile to the codec of that profile's own type |
| Sharing.HttpShareIsRejected | V2rayNG/app/src/main/java/com/v2ray/ang/handler/AngConfigManager.kt:136 | the share string of an HTTP profile is rejected by `parseConfig` with `toast_incorrect_protocol` |
| Sharing.Share2ClipboardOutcome | V2rayNG/app/src/main/java/com/v2ray/ang/handler/AngConfigManager.kt:148-162 | 0 and a clipboard write exactly when the share string is non-empty; otherwise -1, with no write for a missing or CUSTOM profile |
| Sharing.SharedTextIsTerminatedShares | V2rayNG/app/src/main/java/com/v2ray/ang/handler/AngConfigManager.kt:166-174 | the built text is each non-empty share string, in list order, followed by "\n" |
| Sharing.SharedTextSplitsIntoShares | V2rayNG/app/src/main/java/com/v2ray/ang/handler/AngConfigManager.kt:166-174 | when no share string holds "\n", cutting the text at "\n" gives back the share strings in order, plus an empty last piece |
| Sharing.SharedTextSkipsCustom | V2rayNG/app/src/main/java/com/v2ray/ang/handler/AngConfigManager.kt:169-171 | a CUSTOM profile, or a guid with no profile, adds nothing to the text |
| Sharing.ClipboardSetIffSomeShare | V2rayNG/app/src/main/java/com/v2ray/ang/handler/AngConfigManager.kt:175-182 | the status is 0, and the clipboard is set, to the text, exactly when some guid of the list has a share string |
| Manager.AngConfigManager.constructor | V2rayNG/app/src/main/java/com/v2ray/ang/handler/AngConfigManager.kt:11 | an empty server storage with no selection, over the given subscriptions, is valid |
| Manager.AngConfigManager.ParseConfig | V2rayNG/app/src/main/java/com/v2ray/ang/handler/AngConfigManager.kt:75-126 | the in-place update ends in `Importer.ParseConfig`'s state and status, and keeps `Valid` |
| Manager.AngConfigManager.ParseBatchConfig | V2rayNG/app/src/main/java/com/v2ray/ang/handler/AngConfigManager.kt:256-294 | snapshot, deletion and the line loop end in `Importer.ParseBatchConfig`'s state and count, and keep `Valid` |
| Manager.AngConfigManager.ParseLines | V2rayNG/app/src/main/java/com/v2ray/ang/handler/AngConfigManager.kt:278-289 | the `forEach` loop counts the lines with status 0, ending where the run of those lines ends |
| Manager.AngConfigManager.ParseCustomConfigServer | V2rayNG/app/src/main/java/com/v2ray/ang/handler/AngConfigManager.kt:296-308 | ends in `Importer.ParseCustomConfigServer`'s state and status |
| Manager.AngConfigManager.ParseConfigViaSub | V2rayNG/app/src/main/java/com/v2ray/ang/handler/AngConfigManager.kt:64-73 | the reassignments of `count` end in the fallback's state and value |
| Manager.AngConfigManager.ImportUrlAsSubscription | V2rayNG/app/src/main/java/com/v2ray/ang/handler/AngConfigManager.kt:246 | the hook appends the url to the link log and returns what the environment reports; the subscription it creates is not stored (see Left out) |
| Manager.AngConfigManager.UpdateConfigViaSubAll | V2rayNG/app/src/main/java/com/v2ray/ang/handler/AngConfigManager.kt:229 | the hook counts one call and changes nothing else |
| Manager.AngConfigManager.ParseBatchSubscription | V2rayNG/app/src/main/java/com/v2ray/ang/handler/AngConfigManager.kt:235-254 | the `forEach` loop ends in `Importer.ParseBatchSubscription`'s state and count |
| Manager.AngConfigManager.ImportBatchConfig | V2rayNG/app/src/main/java/com/v2ray/ang/handler/AngConfigManager.kt:215-233 | ends in `Importer.ImportBatchConfig`'s state and pair of counts |
| Manager.AngConfigManager.UpdateConfigViaSub | V2rayNG/app/src/main/java/com/v2ray/ang/handler/AngConfigManager.kt:13-62 | the guards and the two fetches end in `Importer.UpdateConfigViaSub`'s state, count and fetch list |
| Manager.AngConfigManager.ShareNonCustomConfigsToClipboard | V2rayNG/app/src/main/java/com/v2ray/ang/handler/AngConfigManager.kt:164-183 | the `StringBuilder` loop builds the shared text and sets the clipboard exactly when it is non-empty |

## Left out

- Network fetches (`Utils.getUrlContentWithCustomUserAgent`), the
  30000 ms timeout, the proxy port, the Android device id and `Log` are
  I/O. The two fetch outcomes and the device id are parameters of
  `updateConfigViaSub`.
- The protocol codecs (`VmessFmt.parse` / `toUri`, …), `Utils.decode`,
  `Utils.idnToASCII`, `Utils.isValidUrl`, `Utils.isValidSubUrl` and the
  `Regex` engine are not part of this model. They are arbitrary functions
  in `Env`, so no codec round trip is claimed.
- A regular expression that does not compile makes `parseConfig` throw and
  return -1. The model folds this into `containsMatchIn` being false, which
  gives the same status.
- The scheme strings of `EConfigType` and `AppConfig` are not part of this
  model. The usual values are used: "vmess://", "ss://", "socks://",
  "trojan://", "vless://", "wireguard://", "hysteria2://", the alias
  "hy2://", "http://", and "" for CUSTOM.
- The resource ids `R.string.toast_none_data` and
  `R.string.toast_incorrect_protocol` are fixed at build time. Two distinct
  positive placeholder constants stand for them.
- `MmkvManager` is an in-memory map, a selection string and a counter that
  mints guids. `removeServerViaSubid` is not part of this model; it is
  taken to delete exactly the profiles whose subscription id equals `subid`
  and to leave the selection alone.
- Importer.ImportBatchConfig and `importUrlAsSubscription`: the model does
  not write the `SubscriptionItem` that the Kotlin hook stores for each
  valid url (line 246). The new subscription appears only as its url,
  appended to the link log `subscriptionImports`. The `subscriptions` map
  is never written, so the frames of `ImportLinks`,
  `ParseBatchSubscription`, `ImportBatchConfig` and the manager's hook
  keep it only because the hook's write is not modelled.
- `importUrlAsSubscription` and `updateConfigViaSubAll` are not part of
  this model. They are hooks: one logs the url and reports a number from
  `Env`, the other counts its calls.
- Exceptions are not modelled as control flow. Each `catch` becomes the
  value it returns: -1 for a throwing codec in `parseConfig`, "" for a
  throwing encoder in `shareConfig`. The remaining catch-alls (0 in
  `parseBatchConfig`, `parseBatchSubscription`, `parseCustomConfigServer`
  and `updateConfigViaSub`; -1 in the clipboard functions) guard against
  storage, clipboard or library failures that the model does not produce.
- The clipboard, `share2QRCode` and `shareFullContent2Clipboard` are
  output channels or foreign calls. The clipboard appears only as the text
  handed to it.
