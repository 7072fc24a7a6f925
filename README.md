# booru-lightbox-extension, modelled in Dafny

This project models the decision logic of the booru lightbox browser extension and of the
small upload server that goes with it. The covered parts are:

- **Adapter registries.** Both trees of the content script pick a site adapter for the current page.
  - The newer `entrypoints` tree walks nine adapters and tests `location.host`.
  - The older `src/entries` tree walks five adapters and tests `location.hostname`.
  - In both, a scalar `domains` becomes a one-element list, and a domain matches when it is a substring of the host string (modules `Adapters`, `Registry`, `LegacyRegistry`).
- **Lightbox helpers.** `resolveScalarOrFunction`, and `formatDuration` on whole seconds (module `LightboxUtils`).
- **Stoppable debounce filter.** The closure state of `debounceFilter` is modelled with time as discrete events: a call, the regular timer firing, the max timer firing, and `cancel` (module `Debounce`).
  - Pure step functions specify each event.
  - The class `DebounceFn.DebounceFilter` holds the closure variables as fields, and each method is proved to follow the matching step function while keeping an invariant.
  - `DebouncedFunction` is the wrapper whose `cancel` delegates to the filter.
- **Item scanners.** The e621 adapters of both trees and the realbooru adapter, over an abstract DOM (modules `Media`, `E621`, `LegacyE621`, `Realbooru`).
  - A document is known by the elements each selector matches.
  - A fetched page is a parsed document, or a fetch failure.
- **CSP rewrite.** The background script's header rewrite drops every `content-security-policy` header and appends `content-security-policy: *` (module `Csp`).
- **Upload server.** The task bookkeeping of `plasmoid-py/src/server.py` (modules `Json`, `Uuids`, `Requests`, `Forward`, `TaskQueue`):
  - the JSON form of a planned request and its round trip;
  - the mapping from a JSON-RPC answer to a status;
  - the `forward_request` checks;
  - the `AppQueue` operations on the pending deque and the processed list, with `PlannedRequest` and `AppQueue` as classes whose fields those operations update.

I/O and time enter as parameters or are left out:
- fetches are a `Fetch` function from URL to settled document;
- the fresh UUID of `forward_request` is a parameter;
- the JSON-RPC response is an optional JSON value, where `None` stands for a request or decode that raised.

## Model

| member | source | states |
|---|---|---|
| Adapters.AnyDomainIn | entrypoints/lightbox.content/websites/index.ts:31-37 | an adapter's domain loop succeeds exactly when some domain is contained in the host |
| Adapters.FirstMatch | entrypoints/lightbox.content/websites/index.ts:26-38 | the index `find` stops at matches, no earlier adapter matches, and `None` means no adapter matches |
| Adapters.Find | entrypoints/lightbox.content/websites/index.ts:26-38 | `undefined` exactly when no adapter matches; otherwise a listed adapter that matches |
| Adapters.FindIsFirst | entrypoints/lightbox.content/websites/index.ts:26 | a matching adapter with no matching predecessor is the one returned |
| Adapters.ScalarDomainIsSingleton | entrypoints/lightbox.content/websites/index.ts:27-30 | a scalar domain matches exactly as the one-element list holding it, i.e. by containment |
| Adapters.EmptyDomainMatchesAll | entrypoints/lightbox.content/websites/index.ts:33-34 | an empty domain string matches every host |
| Strings.ContainsIffOccurs | entrypoints/lightbox.content/websites/index.ts:34 | `includes` holds exactly when the needle occurs at some index of the host |
| Strings.Contains | entrypoints/lightbox.content/websites/index.ts:34 | a contained needle is no longer than the host, and the empty needle is contained in every host |
| Registry.Host | entrypoints/lightbox.content/websites/index.ts:34 | `location.host` is the hostname, followed by `:` and the port when there is one |
| Registry.CollectImagesModules | entrypoints/lightbox.content/websites/index.ts:11-21 | nine adapters in the order e621, furaffinity, gelbooru, inkbunny, rule34, local, sankakuComplex, realbooru, yandere |
| Registry.GetCollectImagesModule | entrypoints/lightbox.content/websites/index.ts:23-39 | a returned adapter is registered and matches `location.host`; `undefined` exactly when no registered adapter matches |
| Registry.LookupIsFirstMatch | entrypoints/lightbox.content/websites/index.ts:23-39 | the lookup returns the first adapter in list order whose domains match the host, and `undefined` exactly when none matches |
| Registry.E621HostsSelectE621 | entrypoints/lightbox.content/websites/e621.tsx:40 | any host containing `e621.net` or `e926.net` selects e621 |
| Registry.LookalikeHostSelectsE621 | entrypoints/lightbox.content/websites/index.ts:34 | the look-alike host `e621.net.evil.com` selects e621 |
| Registry.LocalServerHostSelectsLocal | entrypoints/lightbox.content/websites/local.tsx:17 | a host containing `localhost:8474` and no character that tells the earlier domains apart selects the local adapter |
| Registry.LocalhostPortSelectsLocal | entrypoints/lightbox.content/websites/index.ts:34 | hostname `localhost` with port 8474 selects the local adapter, so the port takes part in matching |
| Registry.ForeignHostSelectsNothing | entrypoints/lightbox.content/websites/index.ts:23-39 | a host lacking a character of every registered domain selects nothing unless the sankakuComplex entry matches |
| Registry.UnknownHostSelectsNothing | entrypoints/lightbox.content/websites/index.ts:23-39 | `notbooru.com` selects nothing, unless the sankakuComplex entry matches it |
| LegacyRegistry.CollectImagesModules | src/entries/contentScript/lightbox/websites/index.ts:8-14 | five adapters in the order e621, furaffinity, gelbooru, inkbunny, rule34 |
| LegacyRegistry.GetCollectImagesModule | src/entries/contentScript/lightbox/websites/index.ts:16-26 | a returned adapter is one of the five and matches `location.hostname`; `undefined` exactly when none matches |
| LegacyRegistry.LookupIsFirstMatch | src/entries/contentScript/lightbox/websites/index.ts:16-26 | lodash `find` returns the first adapter whose domains occur in the hostname, `undefined` exactly when none does |
| LegacyRegistry.PortIsIgnored | src/entries/contentScript/lightbox/websites/index.ts:23 | two locations with the same hostname select the same adapter whatever their ports |
| LegacyRegistry.ForeignHostnameSelectsNothing | src/entries/contentScript/lightbox/websites/index.ts:16-26 | a hostname lacking a character of every domain of the five adapters selects nothing |
| LegacyRegistry.LocalhostSelectsNothing | src/entries/contentScript/lightbox/websites/index.ts:8-14 | the local server page selects nothing in the older list |
| LegacyRegistry.E621HostsSelectE621 | src/entries/contentScript/lightbox/websites/e621.tsx:13 | a hostname containing `e621.net` or `e926.net` selects e621 |
| LightboxUtils.ResolveScalarOrFunction | entrypoints/lightbox.content/utils.ts:1-5 | a literal comes back unchanged with no callback run; a callback runs exactly once and its settled result comes back |
| LightboxUtils.FormatDuration | entrypoints/lightbox.content/utils.ts:7-15 | the output is at least five characters long and its third character from the end is the colon before the two-digit seconds |
| LightboxUtils.FormatDurationFields | entrypoints/lightbox.content/utils.ts:7-15 | the output is the hour prefix, then digits worth the total minutes `v div 60` (exactly two below ten minutes, no leading zero from ten on), a colon, and exactly two digits worth `v mod 60` |
| LightboxUtils.FormatDurationOneColon | entrypoints/lightbox.content/utils.ts:11-13 | the output holds exactly one colon |
| LightboxUtils.FormatDurationOfOneHourTwoMinutes | entrypoints/lightbox.content/utils.ts:8-13 | 3725 seconds render as `162:05` |
| LightboxUtils.FormatClockFields | entrypoints/lightbox.content/utils.ts:7-15 | the corrected rendering puts `h:` first when there is an hour, then two-digit minutes below 60 and two-digit seconds, and the fields add back up to the input |
| LightboxUtils.FormatClockOfOneHourTwoMinutes | entrypoints/lightbox.content/utils.ts:7-15 | 3725 seconds render as `1:02:05` under the corrected rendering |
| Strings.PadStart | entrypoints/lightbox.content/utils.ts:11 | `padStart` yields the longer of the width and the input, with fill characters before an unchanged suffix |
| Strings.DecimalValue | entrypoints/lightbox.content/utils.ts:11-13 | the decimal spelling of a number reads back as that number |
| Debounce.Settle | entrypoints/lightbox.content/composables/useDebounceFnStoppable.ts:37-53 | settling changes only a pending promise, and only the one addressed |
| Debounce.RunRejector | entrypoints/lightbox.content/composables/useDebounceFnStoppable.ts:17-21 | `lastRejector` runs on its promise, then is reset to `noop`, and nothing else changes |
| Debounce.AfterCall | entrypoints/lightbox.content/composables/useDebounceFnStoppable.ts:25-55 | a call is recorded with a new promise; with bypass it is invoked at once and its promise resolved; otherwise nothing is invoked and the live regular timer is the new call's, whose promise is pending |
| Debounce.AfterFireTimer | entrypoints/lightbox.content/composables/useDebounceFnStoppable.ts:49-53 | the call behind the timer is invoked, and no timer is left |
| Debounce.AfterFireMaxTimer | entrypoints/lightbox.content/composables/useDebounceFnStoppable.ts:42-46 | the last invoker is invoked, and the max timer is gone |
| Debounce.AfterCancel | entrypoints/lightbox.content/composables/useDebounceFnStoppable.ts:57-61 | `cancel` records no call and invokes nothing, and leaves no max timer and no live regular timer |
| Debounce.BypassClearsMaxTimer | entrypoints/lightbox.content/composables/useDebounceFnStoppable.ts:29-35 | a bypass call from any state with a scheduled max timer clears it, settles the promise `lastRejector` held, and invokes and resolves the new call at once |
| Debounce.InitialIsValid | entrypoints/lightbox.content/composables/useDebounceFnStoppable.ts:14-23 | the initial closure state satisfies the invariant |
| Debounce.CallStep | entrypoints/lightbox.content/composables/useDebounceFnStoppable.ts:25-55 | a call keeps the invariant and settled promises, and settles the previous pending promise with no value or rejects it; with bypass it invokes at once, resolves its promise and clears the max timer; otherwise it schedules itself and starts a max timer only when `maxWait` is set and none is pending |
| Debounce.FireTimerStep | entrypoints/lightbox.content/composables/useDebounceFnStoppable.ts:49-53 | the regular timer invokes the call that scheduled it, leaves no timer and no pending promise, and gives the result only when no max timer was pending |
| Debounce.FireMaxTimerStep | entrypoints/lightbox.content/composables/useDebounceFnStoppable.ts:42-46 | the max timer invokes the most recent call, whose promise has already been settled with no value |
| Debounce.CancelStep | entrypoints/lightbox.content/composables/useDebounceFnStoppable.ts:57-61 | `cancel` invokes nothing, leaves no timer and settles the pending promise with no value or rejects it |
| Debounce.BurstStep | entrypoints/lightbox.content/composables/useDebounceFnStoppable.ts:29-47 | after a burst of calls only the last promise is pending, earlier ones are settled with no value, nothing is invoked, and the max timer belongs to the burst's first call |
| Debounce.BurstInvokesLast | entrypoints/lightbox.content/composables/useDebounceFnStoppable.ts:29-53 | without `maxWait`, a burst and one firing make exactly one invocation, of the last call, which alone gets the result |
| Debounce.MaxWaitLosesResults | entrypoints/lightbox.content/composables/useDebounceFnStoppable.ts:17-53 | with `maxWait`, whichever timer fires, the caller's promise is settled with no value before the result is offered |
| DebounceFn.DebounceFilter.constructor | entrypoints/lightbox.content/composables/useDebounceFnStoppable.ts:10-23 | a new filter starts in the initial state, which is valid |
| DebounceFn.DebounceFilter.RunLastRejector | entrypoints/lightbox.content/composables/useDebounceFnStoppable.ts:17-21 | the fields change as `RunRejector` says |
| DebounceFn.DebounceFilter.Call | entrypoints/lightbox.content/composables/useDebounceFnStoppable.ts:25-55 | the fields move to `AfterCall` of the old state, the invariant is kept, and the returned index is the new call's promise |
| DebounceFn.DebounceFilter.FireTimer | entrypoints/lightbox.content/composables/useDebounceFnStoppable.ts:49-53 | the fields move to `AfterFireTimer` of the old state and the invariant is kept |
| DebounceFn.DebounceFilter.FireMaxTimer | entrypoints/lightbox.content/composables/useDebounceFnStoppable.ts:42-46 | the fields move to `AfterFireMaxTimer` of the old state and the invariant is kept |
| DebounceFn.DebounceFilter.Cancel | entrypoints/lightbox.content/composables/useDebounceFnStoppable.ts:57-61 | the fields move to `AfterCancel` of the old state and the invariant is kept |
| DebounceFn.DebouncedFunction.Call | entrypoints/lightbox.content/composables/useDebounceFnStoppable.ts:71-72 | a call of the wrapped function is a call of the filter |
| DebounceFn.DebouncedFunction.Cancel | entrypoints/lightbox.content/composables/useDebounceFnStoppable.ts:75 | the wrapper's `cancel` is the filter's `cancel` |
| DebounceFn.BurstScenario | entrypoints/lightbox.content/composables/useDebounceFnStoppable.ts:29-53 | three calls then a firing invoke only the third; the first two promises get no value |
| DebounceFn.MaxWaitScenario | entrypoints/lightbox.content/composables/useDebounceFnStoppable.ts:41-46 | with `maxWait`, two calls then the max timer invoke the second, and both promises get no value |
| Media.ScanLiterals | entrypoints/lightbox.content/websites/e621.tsx:4-39 | one literal item per element in document order, bound to that element; the scan rejects exactly when some element's mapping throws |
| Media.LinkHref | entrypoints/lightbox.content/websites/e621.tsx:41-42 | the first matching element's `href`, and `undefined` when the element or its attribute is absent |
| E621.ThumbnailItem | entrypoints/lightbox.content/websites/e621.tsx:6-34 | `swf` takes the thumbnail image's src, `webm` and `mp4` are Video from `data-file-url`, anything else is Image from `data-file-url`; the page URL is always the first anchor's href; a missing anchor (or image for `swf`) throws |
| E621.Collect | entrypoints/lightbox.content/websites/e621.tsx:4-39 | the scan succeeds exactly when every `article.thumbnail` maps without throwing, and otherwise rejects with a TypeError |
| E621.CollectPerThumbnail | entrypoints/lightbox.content/websites/e621.tsx:4-39 | one item per `article.thumbnail`, in order, with `el` being that article |
| E621.GetPrevPageUrl | entrypoints/lightbox.content/websites/e621.tsx:41 | defined exactly when `#paginator-prev` exists and has an `href` |
| E621.GetNextPageUrl | entrypoints/lightbox.content/websites/e621.tsx:42 | defined exactly when `#paginator-next` exists and has an `href` |
| LegacyE621.PreviewItem | src/entries/contentScript/lightbox/websites/e621.tsx:5-12 | src is always `data-file-url`, the label links to the first anchor, the type is Video exactly for `webm`, and there is no page URL |
| LegacyE621.Collect | src/entries/contentScript/lightbox/websites/e621.tsx:4-12 | the scan succeeds exactly when every `.post-preview` has an anchor, and otherwise rejects with a TypeError |
| LegacyE621.CollectPerPreview | src/entries/contentScript/lightbox/websites/e621.tsx:4-12 | one item per `.post-preview`, in order |
| LegacyE621.Mp4AndSwfAreImages | src/entries/contentScript/lightbox/websites/e621.tsx:10 | `mp4` and `swf` posts are images whose source is `data-file-url` |
| Realbooru.ItemFromPage | entrypoints/lightbox.content/websites/realbooru.tsx:15-32 | `#image` gives its src as Image; otherwise the player's `<source>` gives a Video; with neither the src is empty and the type Video; the page URL is always the anchor's href |
| Realbooru.ReadPage | entrypoints/lightbox.content/websites/realbooru.tsx:15-32 | the callback body, with `src` reassigned step by step, computes `ItemFromPage` |
| Realbooru.ItemCallback | entrypoints/lightbox.content/websites/realbooru.tsx:9-33 | a failed fetch rejects the item with the fetch's reason; a fulfilled item came from a fetched page and has the anchor's href as page URL |
| Realbooru.Collect | entrypoints/lightbox.content/websites/realbooru.tsx:5-35 | one deferred item per `.items .col.thumb a`, in order, whose callback fetches that anchor's href |
| Realbooru.ResolveCollected | entrypoints/lightbox.content/websites/realbooru.tsx:9-33 | resolving an item runs its callback once: a failed fetch rejects it, a fetched page gives the item read from it, with the anchor's href as page URL |
| Realbooru.GetPrevPageUrl | entrypoints/lightbox.content/websites/realbooru.tsx:37-39 | the previous page is read from the `[alt=next]` link |
| Realbooru.GetNextPageUrl | entrypoints/lightbox.content/websites/realbooru.tsx:40-42 | the next page is read from the `[alt=back]` link |
| Csp.PermissiveIsCsp | entrypoints/background.ts:9-12 | the appended header is itself a CSP header |
| Csp.Rewritten | entrypoints/background.ts:6-12 | the output has one more header than the non-CSP inputs, ends with `content-security-policy: *`, holds no CSP header before that, and keeps the other headers in order |
| Csp.OnHeadersReceived | entrypoints/background.ts:4-14 | undefined headers stay undefined, and defined ones become `Rewritten` |
| Csp.RewrittenMembership | entrypoints/background.ts:6-12 | a header is in the output exactly when it is a non-CSP input header or the appended one |
| Csp.ExactlyOneCsp | entrypoints/background.ts:6-12 | the output holds exactly one CSP header |
| Csp.RewriteIdempotent | entrypoints/background.ts:6-12 | rewriting a rewritten list changes nothing |
| Uuids.Parse | plasmoid-py/src/server.py:36 | a parsed id is 32 hexadecimal digits |
| Uuids.FormatShape | plasmoid-py/src/server.py:132 | `str(uuid)` is 36 characters long, with hyphens exactly at offsets 8, 13, 18 and 23 and a lower-case hexadecimal digit (`0`-`9`, `a`-`f`) at every other offset |
| Uuids.ParseFormat | plasmoid-py/src/server.py:122-132 | `UUID(str(u)) == u` |
| Requests.MethodFromValue | plasmoid-py/src/server.py:94-97 | `RequestMethod(value)` finds the member whose value it is |
| Requests.MethodValueRoundTrip | plasmoid-py/src/server.py:94-97 | every method's value reads back as that method |
| Requests.Encode | plasmoid-py/src/server.py:130-139 | `to_json()` writes exactly the seven keys, and `file` is `null` without the data URI |
| Requests.OptionalField | plasmoid-py/src/server.py:125-126 | `data.get(key)` gives `None` exactly when the key is absent or `null`, and the string when it holds one |
| Requests.Decode | plasmoid-py/src/server.py:119-128 | a decoded request has a parsed id, a listed method and the given endpoint, and is queued; `url` and `file` are taken from the data when present and `None` when absent or `null`; `retries` is the stored number, and 0 when the key is absent; a body that is not a dict or has no id is an error |
| Requests.DecodeWellTyped | plasmoid-py/src/server.py:119-128 | every dict with a parsable id, a listed method, a string endpoint, `url`/`file` absent, `null` or strings, and `retries` absent or a number decodes successfully |
| Requests.RoundTrip | plasmoid-py/src/server.py:119-139 | `from_json(to_json())` keeps id, method, endpoint, url and retries, with file `None` and status queued |
| Requests.StatusFor | plasmoid-py/src/server.py:207-221 | `true` completes, `"duplicate"` marks a duplicate, and any other value, 1 included, fails |
| Requests.ResultOf | plasmoid-py/src/server.py:168-207 | `response['result']` is readable exactly when the response is a dict holding that key |
| Forward.ValidateForward | plasmoid-py/src/server.py:230-282 | as written: falsy data is rejected (answered with a bare tuple, see Findings); truthy data that is not a dict raises (500); a dict whose method is neither `post_photo` nor `post_gif` is an unknown method (400); an accepted base64 photo names the `<id>.jpg` file and no URL; other accepted requests carry a URL and no file |
| Forward.GifWithTwoParamsRaises | plasmoid-py/src/server.py:268-271 | `post_gif` with two string parameters passes the check and then raises, giving 500 |
| Forward.FalsyBodyServes500 | plasmoid-py/src/server.py:233-234 | a falsy body is answered with the bare `(body, 400)` tuple instead of a `jsonr` response, so the client receives 500 |
| Forward.ValidateForwardChecked | plasmoid-py/src/server.py:230-282 | the corrected handler: falsy data is rejected; it raises exactly on truthy data that is not a dict; another method is unknown; an accepted photo names the `<id>.jpg` file or carries the URL |
| Forward.CheckedNeverRaisesOnDicts | plasmoid-py/src/server.py:241-280 | with the arity checked, a dict body never raises, and the answer agrees with the code as written wherever that does not raise |
| Forward.CheckedServedCodes | plasmoid-py/src/server.py:230-282 | with every answer wrapped by `jsonr`: 400 for a falsy body, and exactly for rejections of a dict; 500 exactly for a truthy non-dict body; 200 exactly for a planned request |
| Forward.PhotoAcceptedIff | plasmoid-py/src/server.py:242-266 | `post_photo` is accepted exactly with a string and a boolean; true plans a file upload, false a URL upload of that string |
| Forward.GifAcceptedIff | plasmoid-py/src/server.py:268-277 | `post_gif` is accepted exactly with one string parameter, which becomes the URL |
| TaskQueue.PlannedRequest.constructor | plasmoid-py/src/server.py:109-117 | the new request holds the given fields |
| TaskQueue.PlannedRequest.ToJson | plasmoid-py/src/server.py:119-139 | decoding the JSON gives back the request's fields with file `None` and status queued |
| TaskQueue.PlannedRequest.Handle | plasmoid-py/src/server.py:164-227 | a readable result sets the status from it and puts the request at the front of processed; otherwise retries go up by one and the request goes back on the pending queue, still processing |
| TaskQueue.FromJson | plasmoid-py/src/server.py:119-128 | a new request holding the decoded fields, or the decoding error |
| TaskQueue.FirstWithId | plasmoid-py/src/server.py:35-48 | the index of the first request with the id, with none before it, or `None` when no request has it |
| TaskQueue.KeepNewest | plasmoid-py/src/server.py:51 | the result is the prefix of the list whose length is the smaller of 21 and the list's length |
| TaskQueue.KeepNewestIdempotent | plasmoid-py/src/server.py:50-51 | cleaning up twice is cleaning up once |
| TaskQueue.KeptTasks | plasmoid-py/src/server.py:307 | only completed or duplicate requests survive, and none is added |
| TaskQueue.KeptTasksMembership | plasmoid-py/src/server.py:307 | a request survives exactly when it was processed and is completed or a duplicate |
| TaskQueue.KeptTasksInOrder | plasmoid-py/src/server.py:307 | the survivors keep their order |
| TaskQueue.KeptTasksIdempotent | plasmoid-py/src/server.py:307 | clearing twice is clearing once |
| TaskQueue.HandledSurvivesClear | plasmoid-py/src/server.py:207-221 | a request that `handle` put at the front of processed with the status its result gives survives `clear_tasks` exactly when that result was `true` or `"duplicate"` |
| TaskQueue.HandleThenClear | plasmoid-py/src/server.py:207-221 | running `handle` with a result and then `clear_tasks` leaves the request in processed exactly when the result was `true` or `"duplicate"` |
| TaskQueue.AppQueue.Put | plasmoid-py/src/server.py:147 | the request joins the back of the pending queue |
| TaskQueue.AppQueue.Get | plasmoid-py/src/server.py:75 | the front of the pending queue is taken off it |
| TaskQueue.Removal | plasmoid-py/src/server.py:36-48 | with no removal both lists are unchanged; a removed request carries the id, and the two lists lose exactly that request |
| TaskQueue.RemovalFinds | plasmoid-py/src/server.py:36-48 | no request with the id means no removal; a request with the id is removed when no pending one with the id is processing; a refused removal means a pending request with the id is processing |
| TaskQueue.AppQueue.RemoveById | plasmoid-py/src/server.py:34-48 | an unparsable id is an error and changes nothing; otherwise the result and both lists are those of `Removal` on the old lists |
| Seqs.RemoveAtInverse | plasmoid-py/src/server.py:42-46 | removing an entry loses exactly that entry: putting it back restores the list, and the multiset only loses that element |
| TaskQueue.AppQueue.CleanupOld | plasmoid-py/src/server.py:50-51 | processed becomes `KeepNewest` of itself; pending is unchanged |
| TaskQueue.AppQueue.ClearTasks | plasmoid-py/src/server.py:307 | processed becomes `KeptTasks` of itself; pending is unchanged |
| TaskQueue.AppQueue.RemoveTask | plasmoid-py/src/server.py:309-313 | the lists change as `remove_by_id` changes them (`Removal`), the removed request is marked removed with its retries kept, and every other request of the old lists keeps its status and retries |
| TaskQueue.AppQueue.ForwardRequest | plasmoid-py/src/server.py:230-282 | an accepted body plans a fresh queued request with no retries at the back of the pending queue; otherwise nothing is queued |
| TaskQueue.RetriedRequestCannotBeRemoved | plasmoid-py/src/server.py:38-41 | a request whose call raised goes back on the queue still processing, so removing it by id is refused |

## Left out

- DOM querying, `DOMParser`, `ky` and `httpx` are abstracted. A document is the elements each selector matches; a fetch is a function from URL to a settled document; the server's JSON-RPC call is its optional decoded answer.
- RegExp domains: none is registered, so domains are strings only.
- The sankakuComplex adapter of the newer tree is not part of this model; its descriptor is a parameter of `Registry.CollectImagesModules`.
- The other adapters' scan callbacks (furaffinity, gelbooru, inkbunny, rule34, local, sankakuComplex, yandere) hold no decision logic; only their domains and rescan intervals appear, as registry data.
- Debounce.Config: `ms` and `maxWait` are read once, and the source re-reads them on every call, so the invariant `Valid` and the step lemmas never reach the bypass branch clearing a live max timer. That branch is stated on its own, for any state, by `Debounce.BypassClearsMaxTimer`.
- Real timers, `setTimeout`/`clearTimeout` and `createFilterWrapper` are replaced by discrete call, fire and cancel events. The value an `invoke` returns stands for the call itself, and a throwing `invoke` is not modelled.
- LightboxUtils.FormatDuration: only whole non-negative seconds; fractional and negative inputs are floating point.
- Strings.ToLowerAscii: lower-cases ASCII letters only, not the full Unicode mapping of `toLowerCase`.
- Uuids.Parse: accepts only hyphenated or plain hexadecimal text. Python's `UUID()` also accepts braces and a `urn:uuid:` prefix, and `UUID(int=uuid7().int)` is replaced by a fresh-id parameter.
- Requests.Decode: rejects an ill-typed `endpoint`, `url`, `file` or `retries`, which Python's `from_json` would store unchecked.
- Json numbers are integers only; floats are not modelled.
- Base64 decoding of the photo and writing the `.jpg` file: an invalid base64 string, which raises in `forward_request`, is not modelled. Data URIs in `to_json(True)` are not modelled either.
- Upload-server plumbing is left out: the `logger` calls of `server.py` and the `console.log` calls of `background.ts`, the asyncio worker loop, `AioPool`, Sanic routing, websocket notifications, JSON files under the upload directory, and the five-second retry sleep.
- `handle`'s "Unknown method" branch cannot be reached, because the enumeration has three members.
- TaskQueue.AppQueue.ForwardRequest: uses the corrected `post_gif` check (see Findings).
- Forward.Served: the web framework's treatment of a handler value that is not a response (an invalid-response-type error, answered with 500) is taken from its documented behaviour; the framework's code is not part of this model.
- The release scripts, the UI mounting code, the build configuration and the `getImageBase64` helpers are outside the modelled core.

## Findings

| source | as written | input that shows it | evidently intended | confidence | as-written member | corrected member |
|---|---|---|---|---|---|---|
| entrypoints/lightbox.content/utils.ts:8-13 | minutes are `floor(v / 60)` without reduction mod 60, and the hour count is prepended with no separator | 3725 seconds give `162:05` | `1:02:05`: hours, a colon, minutes below 60, seconds | not executed | LightboxUtils.FormatDurationOfOneHourTwoMinutes | LightboxUtils.FormatClockFields |
| plasmoid-py/src/server.py:269-271 | the `post_gif` check accepts any non-empty list starting with a string, then `url, = args` unpacks exactly one element | `{"method": "post_gif", "params": ["a", "b"]}` raises ValueError, giving 500 | a 400 "Invalid parameters" answer, like the `post_photo` arity check | not executed | Forward.GifWithTwoParamsRaises | Forward.CheckedNeverRaisesOnDicts |
| plasmoid-py/src/server.py:233-234 | the falsy-body branch returns a bare `(dict, 400)` tuple, while every other answer is wrapped by `jsonr(...)` | an empty or `null` JSON body: the framework refuses the tuple as an invalid response type and answers 500 | a 400 "No data provided." JSON response | not executed | Forward.FalsyBodyServes500 | Forward.CheckedServedCodes |
