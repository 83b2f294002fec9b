# i3-status-travis, modelled in Dafny

A model of the `Travis` status block of i3-status-travis (`src/index.js`).
The block polls the Travis CI REST API for one or more accounts. It summarises
each repository as `{project, ok, build}`, shows a short status text and colour
in i3status, and on demand renders an HTML report of the last result.

The model follows the shape of the source:

- `results.dfy`: `Option` and `Result` (the thrown or rejected errors, carried as messages).
- `seqs.dfy`: the array operations the block uses. `Filter` is `Array.prototype.filter`.
  `Flatten` is the left fold of `concat`, used for `flatten` and for `join('')`.
- `text.dfy`: decimal rendering of counts (`${n}`) and the order used to sort slugs.
- `configuration.dfy`: the constructor's options, `optionToArray`, validation and
  defaults (`defaultParameter`), reduced to one `Config` value.
- `fetch.dfy`: `readForUser` over an already-parsed response. This covers the request
  headers and URL, the status and body checks, the allow-list filter and the mapping
  to summaries. It also holds the fail-fast join done by `Promise.all`.
- `status.dfy`: `setOutput` and `handleError` as transformations of the output object.
- `report.dfy`: `generateHtmlStatus` and `getHtml`.
- `block.dfy`: `class Travis`. Its fields are the configuration, the output object
  (a `map<string, string>`), `lastResult`, and a ghost log of the outputs carried by
  the `updated` events. Its methods are `SetOutput`, `HandleError` and `Update`.

The transport and the timing of the concurrent polls cannot be seen from the block,
so `Update` takes them as parameters. The transport is a function from `Request` to
`Response`. The completion order is a sequence of poll indices that decides which
rejection `Promise.all` reports.

Points of the source worth noting:

- `handleError` writes only `full_text` and `short_text`. A colour set by an earlier
  successful refresh stays in place; it is not unset.
- `build` is `last_build_id !== null`. A record without `last_build_id` counts as
  built. Only an explicit `null` makes `build` false. The build state plays no part.
- The `user` check is JavaScript truthiness. An empty array of accounts is accepted,
  and the refresh then succeeds with no repositories. The empty string is rejected
  as missing.
- `generateHtmlStatus` sorts first and then drops passing entries.
  `Report.EntriesAreVisible` shows that this equals filtering first and then sorting.
- The `User-Agent` header is `i3-status-travis/1.0.0`, as in `src/index.js:7`.

## Model

| member | source | states |
|---|---|---|
| `Configuration.OptionToArray` | src/index.js:185-195 | a string becomes a one-element list; a list is kept; `undefined` stays absent; any other value fails with "config value <name> must be a string or an array" |
| `Configuration.OptionToArrayIdempotent` | src/index.js:185-195 | normalising the list that `optionToArray` produced gives the same result again |
| `Configuration.Configure` | src/index.js:26-56 | construction fails exactly when `user` is falsy or `user`/`project` is neither a string nor an array; a falsy user gives "config value user is missing" first, then a bad `user`, then a bad `project` |
| `Configuration.ConfigureNormalises` | src/index.js:50-51 | an accepted string `user`/`project` is stored as a one-element list, an array as itself, and an absent `project` stays absent |
| `Configuration.DefaultsApplied` | src/index.js:9-56 | with only a user name given, `Configure` (through `MergeStatus` and `MergeReport`) fills in the URLs, the empty texts, the green/red colours, colorize off, the report defaults (dots on, showSuccess off, sortByName off) and the style block `UserStyle` of the two default colours |
| `Configuration.OverridesKept` | src/index.js:26-56 | each given field overrides its default and each absent one takes it: `url`, `projectUrl`, `token`, the success and failure text and colour (`MergeStatus`), and the three report flags (`MergeReport`); the style block interpolates the resulting colours; without an explicit `colorize`, colouring is on exactly when a custom failure or success colour was given |
| `Fetch.Headers` | src/index.js:140-145 | the client and accept headers come first; an `Authorization` header is present iff a non-empty token is set, and its value is "token " + token; there are no other headers |
| `Fetch.RequestUrlNamesUser` | src/index.js:148 | the URL of `Fetch.RequestFor` is the base URL, `/repos/`, the account and `?active=true`; the account can be cut back out of it |
| `Fetch.Summarize` | src/index.js:166-172 | the slug is kept; `ok` is false iff the last build state is exactly "errored" or "failed"; `build` is false iff `last_build_id` is exactly null (an absent id counts as built) |
| `Fetch.Summaries` | src/index.js:166-172 | one summary per repository, in response order |
| `Fetch.Interpret` | src/index.js:150-174 | a transport error rejects with that error; a status other than 200 rejects with "Error: Got response code N"; a body without `repos` rejects with "result does not contain any repo data"; every other reply is accepted |
| `Fetch.InterpretSelects` | src/index.js:158-172 | an accepted reply without an allow-list summarises every repository position by position; with one, it summarises, in response order, exactly the repositories whose slug is on the list |
| `Fetch.ReadForUser` | src/index.js:138-178 | a poll succeeds iff the transport replies with status 200 and a body holding `repos` |
| `Fetch.ReadForUserOnlyListed` | src/index.js:158-172 | every project a successful poll lists is the summary of a repository in the reply and, when an allow-list is set, its slug is on the list |
| `Fetch.ReadAll` | src/index.js:69 | one poll per configured account, in account order, each through the request for that account |
| `Fetch.Winner` | src/index.js:84-86 | the error reported on failure belongs to a poll that was actually rejected |
| `Fetch.Join` | src/index.js:72-75 | the join succeeds iff every poll succeeded, and then lists their values in account order; a failed join carries the error of a rejected poll |
| `Fetch.JoinReportsFirstRejection` | src/index.js:72-86 | the reported error is that of the first rejected poll in completion order; no poll that settled earlier was rejected |
| `Fetch.JoinIgnoresTiming` | src/index.js:72-75 | when every poll succeeds, the joined result does not depend on the completion order |
| `Seqs.Filter` | src/index.js:78-80 | the filtered list is no longer than the input, and holds only input elements that satisfy the predicate |
| `Seqs.FilterComplete` | src/index.js:161-163 | every input element that satisfies the predicate survives the filter |
| `Seqs.FilterConcat` | src/index.js:161-163 | filtering distributes over concatenation, so relative order is kept |
| `Seqs.FilterFilter` | src/index.js:206-212 | two successive filters select what one filter by the conjunction selects |
| `Seqs.MatchingIndices` | src/index.js:161-163 | the positions the filter keeps are valid indices, in strictly increasing order |
| `Seqs.FilterPositions` | src/index.js:161-163 | element k of the filtered list is the input element at the k-th matching position, and a position is kept iff its element matches |
| `Seqs.FirstMatch` | src/index.js:72-86 | the first position whose element satisfies a predicate, or the length when there is none |
| `Seqs.Flatten` | src/index.js:200-202 | every element of the flattened list comes from one of the per-account lists |
| `Seqs.FlattenLength` | src/index.js:200-202 | the flattened list is as long as all per-account lists together |
| `Seqs.FlattenAt` | src/index.js:200-202 | element j of list i ends up at the sum of the lengths of the lists before i, plus j |
| `Seqs.FlattenConcat` | src/index.js:200-202 | flattening a concatenation flattens both parts, in order |
| `Text.NatToString` | src/index.js:106 | the rendered count is a non-empty string of decimal digits without a leading zero |
| `Text.ParseNatToString` | src/index.js:106 | reading the rendered digits back gives the count |
| `Text.LexLeqTotal` | src/index.js:209 | the slug order compares any two slugs |
| `Text.LexLeqTransitive` | src/index.js:209 | the slug order is transitive |
| `Text.LexLeqAntisymmetric` | src/index.js:209 | only equal slugs are ordered both ways |
| `StatusOutput.StatusText` | src/index.js:102-107 | 0 broken gives the success text; 1 gives the failure text with no suffix; n > 1 gives the failure text followed by " (n)" |
| `StatusOutput.StatusTextCount` | src/index.js:105-107 | with more than one failure the text is the failure text, " (", digits, ")", and the digits read back as the exact count |
| `StatusOutput.AfterSetOutput` | src/index.js:101-116 | `full_text` equals `short_text` equals the status text; with colorize, `color` is the success or failure colour; without it, `color` is unchanged; every other field is unchanged |
| `StatusOutput.AfterHandleError` | src/index.js:125-128 | both text fields become the error; `color` and every other field are unchanged |
| `StatusOutput.SuccessOverwritesError` | src/index.js:101-128 | a successful refresh after a failed one gives the same output as if the failure had not happened |
| `StatusOutput.SetOutputIdempotent` | src/index.js:101-116 | setting the output twice for the same count equals setting it once |
| `Report.Insert` | src/index.js:208-209 | inserting adds exactly the one entry (a permutation of the list plus it) |
| `Report.InsertSorted` | src/index.js:208-209 | inserting into a slug-sorted list keeps it sorted |
| `Report.SortBySlug` | src/index.js:208-209 | the sorted list is a permutation of its input and is in ascending slug order |
| `Report.FilterInsert` | src/index.js:208-212 | on a sorted list, inserting and then filtering equals filtering and then inserting (when the entry passes) |
| `Report.FilterSortCommute` | src/index.js:208-212 | sorting and then filtering equals filtering and then sorting |
| `Report.EntriesAreVisible` | src/index.js:206-212 | the report's entries (`Report.Entries`) are exactly the built entries (and only the failing ones without showSuccess): sorted by slug with sortByName, in `lastResult` order without it |
| `Report.ReportMembership` | src/index.js:206-212 | an entry is in the report iff it is in the last result, has been built, and showSuccess is set or it failed |
| `Report.EntriesSorted` | src/index.js:208-209 | with sortByName the entries are in ascending slug order |
| `Report.ItemMarksState` | src/index.js:224-230 | a `Report.GetHtml` item opens with the fixed dot or class prefix followed by the state name, which is "red" iff the entry failed, and it ends with the link to `projectUrl/slug` followed by `</li>` |
| `Report.Items` | src/index.js:214 | one rendered item per entry, in entry order |
| `Report.RenderReport` | src/index.js:204-222 | the header is `Report.Header`: "Builds on <projectUrl>" with showSuccess, "Failed builds on <projectUrl>" without; the content renders the selected entries; the style block is the one fixed at construction |
| `Report.WrapLayout` | src/index.js:215 | `Report.Wrap` puts the list between `<ul>` and `</ul>`, character for character |
| `Report.ContentLayout` | src/index.js:214-215 | the `Report.Content` markup starts with `<ul>`, ends with `</ul>`, is as long as the items plus both tags, and is `<ul></ul>` when there are no entries |
| `Report.ItemInContent` | src/index.js:214-215 | in the `Report.Content` markup, character j of item i sits right after `<ul>` and the items before it |
| `Block.Travis.constructor` | src/index.js:45-56 | the block keeps the configuration and the given output, has no last result and has emitted nothing |
| `Block.Travis.Create` | src/index.js:26-56 | construction throws exactly what `Configure` rejects; otherwise a fresh block with the normalised configuration |
| `Block.Travis.SetOutput` | src/index.js:101-120 | the output becomes the `setOutput` transformation for the number of broken projects; one event carrying it is emitted; `lastResult` is unchanged |
| `Block.Travis.HandleError` | src/index.js:125-132 | the output becomes the `handleError` transformation; one event carrying it is emitted; `lastResult` is unchanged |
| `Block.Travis.Update` | src/index.js:66-87 | on success `lastResult` is the flattened per-account lists and the output reflects exactly the entries with `ok` false; on failure `lastResult` is kept and the output shows the first rejection; either way one event carrying the new output is appended and earlier events are kept |
| `Block.Travis.GenerateHtmlStatus` | src/index.js:204-222 | no report before the first successful refresh; afterwards the report of `lastResult` |
| `Block.NoBrokenIffAllOk` | src/index.js:78-82 | the broken list is empty, so the success text is shown, iff every entry's last build is ok |
| `Block.MultipleFailuresExample` | test/index.js:284-314 | a failed, an errored and a passing repository give two broken entries and the text " (2)" |
| `Block.ReportEntriesExample` | test/index.js:557-589 | with default report settings, a passed and two failed built projects leave the two failed ones, in aggregation order |

## Left out

- The HTTP request and `JSON.parse` (src/index.js:147-155) are not modelled. The transport is a function parameter that returns a status code and an already-parsed body. A body that fails to parse, or whose `repos` is truthy but not an array, throws inside the callback in the source; the model does not cover that.
- A transport error is modelled by its message string. The source passes the error object itself to `handleError`, which stores that object in the output.
- The concurrency of `Promise.all` and the async callbacks (src/index.js:69-86) are reduced to a completion order given as a parameter. Overlapping refreshes racing on `lastResult` and `output` are not modelled.
- `EventEmitter.emit` (src/index.js:119, 131) is a ghost log of the outputs the events carry. The log records snapshots; in the source every event carries the same output object, which later updates change.
- `action`, `__reporter` and `__logger` (src/index.js:89-96) call into host objects that are not part of this model.
- `localeCompare` (src/index.js:209) is modelled as code-point lexicographic order (`Text.LexLeq` over Dafny's Unicode characters), not locale collation. It also differs from the UTF-16 code-unit order of JavaScript strings between characters beyond U+FFFF and those in U+E000-U+FFFF.
- Report.SortBySlug: the model proves that the result is sorted and a permutation of its input. It does not state stability (equal slugs keep their order) as a separate property, although the insertion sort is stable.
- The CSS style block (src/index.js:59-63) is computed from the colours and carried into the report. Nothing is proved about its text.
- Option values are modelled by type. Arrays holding non-strings, and non-string `url`, `projectUrl`, `token`, text or colour values, are not modelled. An explicit `colorize` and the report flags are reduced to their truthiness. Non-object `success`, `failure` or `report` options are not modelled either.
- Seqs.Flatten covers the two levels `update` passes: per-account arrays of project objects. The source's `flatten` would also flatten deeper nested arrays, which never occur there.
- `new Travis(...)` throwing is modelled by `Block.Travis.Create` returning an error. The Dafny constructor itself only takes an already validated configuration.
