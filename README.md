# Snapshot bot: the `snap` command handler

A Discord bot registers one slash command, `snap`, taking a Cardano NFT
collection's policy id. On invocation it pages through the remote listing of
every address that holds assets of that policy, builds a plain-text snapshot
(one block per holder: its address and how many assets it holds), writes the
snapshot to `snapshot_<policy id>.txt`, replies with that file attached, and
deletes the file. Any exception during the handling is caught and answered with
the fixed message "There was an error fetching the data. Please try again."

This project models that handler in Dafny:

- `api.dfy` (module `Api`): cursors with JavaScript truthiness, holder
  records, pages and the outcome of one GET request.
- `pagination.dfy` (module `Pagination`): the do-while pagination loop as a
  method (`FetchAll`) proved against a recursive specification (`Walk`), and
  lemmas that characterise exactly when the loop succeeds, what it
  accumulates, which cursor each request carries, and how it fails.
- `decimal.dfy` (module `Decimal`): the decimal text of an array length, with
  its parser as the partner and a round-trip lemma.
- `report.dfy` (module `Report`): the map/join formatter, its failure on a
  record without `assets`, and lemmas on its shape.
- `handler.dfy` (module `Handler`): the file name, a `Host` class holding the
  files of the working directory and the trace of outside calls, the handler
  method, and lemmas on the order of its effects.

The remote API is a finite script of responses: the k-th request made
receives the k-th response, whatever cursor it carries. The requests made are
recorded, so the model can state which cursor each one carried. Whether the
file write, the reply with the file and the unlink complete or throw is given as
a parameter (`IoOutcomes`). The base URL and the API key are opaque and do not
appear.

Points where the code behaves in ways worth noting:

- The loop stops on any falsy `next_cursor`: `null`, an absent field or `""`.
  It does not stop only on an absent cursor.
- The report file can outlive the handling. `fs.unlinkSync` runs only after
  the awaited reply completes, so a reply that throws leaves the file on disk
  (`ReplyFailureKeepsFile`). So does an unlink that throws.
- A page without a `data` field does not fail the request.
  `allData.concat(undefined)` appends one `undefined` element, and formatting
  that element then throws. So the handler still replies with the error
  message, but only after all pages have been fetched.
- A holder without an `address` field is not an error. Its block reads
  `Address: undefined`.

## Model

| member | source | states |
|---|---|---|
| `Api.Truthy` | bot.js:81 | The loop condition: a cursor keeps the loop going unless it is `null`, absent or the empty string. |
| `Api.PageItems` | bot.js:76-77 | What one `concat` appends: the page's `data` elements unchanged, or, when `data` is absent, one element that is not a holder. |
| `Api.Flatten` | bot.js:76-77 | What a run of pages accumulates: nothing for no pages, and the first page's elements come first. |
| `Pagination.Walk` | bot.js:60-81 | Specification of the loop. Every run makes at least one request, and the first carries the starting cursor. A successful run got an answer to each of its requests. |
| `Pagination.FetchAll` | bot.js:60-81 | The do-while loop, which starts from a `null` cursor and an empty list. Its result and its requests are exactly those of `Walk(script, Null)`. |
| `Pagination.RequestsFollowCursors` | bot.js:60-81 | The first request carries the starting cursor. Each later request carries exactly the `next_cursor` of the response before it, which was a successful page whose cursor was truthy. |
| `Pagination.WalkCompletes` | bot.js:64-81 | Take a run of pages whose cursors are truthy except the last, with anything after it. The loop makes one request per page and then stops. Its result is all pages' `data` concatenated in fetch order. Its requests carry `null` and then every cursor but the last. |
| `Pagination.WalkFails` | bot.js:63-81 | Pages with truthy cursors followed by a failed or missing response make the loop fail with that error. This holds however many pages succeeded before it. Nothing accumulated is returned. |
| `Pagination.WalkOkInversion` | bot.js:64-81 | Conversely, a loop that succeeds consumed such a chained run of pages at the head of the script. Its result is their `data` in order. |
| `Pagination.SinglePageOneRequest` | bot.js:64-81 | A first page without a truthy cursor ends the loop after exactly one request made with `null`. |
| `Api.FlattenAppend` | bot.js:77 | Accumulating two runs of pages is the concatenation of their accumulations: no reordering and no deduplication. |
| `Decimal.NatToString` | bot.js:86-87 | The asset count's text is decimal digits only, with no leading zero. |
| `Decimal.DecimalRoundTrip` | bot.js:86-87 | Reading the decimal text of a count back gives the count. |
| `Decimal.NatToStringInjective` | bot.js:86-87 | Different counts have different texts. |
| `Report.AddressText` | bot.js:87 | The address as the template literal renders it: the string itself, or `undefined` when the field is absent. |
| `Report.Block` | bot.js:86-87 | A holder's block starts with `Address: `, the address and `\nAssets: `, has only digits after that, and ends with `\n\n`. |
| `Report.Join` | bot.js:88 | `join` gives the empty text for no parts and the part itself for one. Otherwise the text starts with the first part followed by the separator. |
| `Report.Blocks` | bot.js:85-87 | The `map`: it succeeds exactly when every element is a holder with `assets`, and then gives one block per element in order. Otherwise it fails at the first element that is not such a holder. |
| `Report.Snapshot` | bot.js:85-88 | The snapshot exists exactly when every element is formattable. An empty holder list gives the empty text. |
| `Report.JoinAppend` | bot.js:88 | `join` of two non-empty runs of parts is each run joined, with the separator between them. |
| `Report.BlocksAppend` | bot.js:85-87 | Mapping to blocks distributes over concatenation of holder lists. |
| `Report.SnapshotAppend` | bot.js:77-88 | The snapshot of two non-empty holder lists together is their snapshots joined by a newline. |
| `Report.BlockStatesCount` | bot.js:86-87 | A block starts with `Address: `, the address and `\nAssets: `, and ends with `\n\n`. The digits between those two parts read back as `assets.length`, whatever the assets are. |
| `Report.BlockDependsOnlyOnCount` | bot.js:86-87 | For one address, two holders have equal blocks exactly when they hold equally many assets. |
| `Report.TwoHolderExample` | bot.js:85-88 | Holders `addr1` with two assets and `addr2` with none give `"Address: addr1\nAssets: 2\n\n\nAddress: addr2\nAssets: 0\n\n"`. |
| `Handler.FileName` | bot.js:90 | The name is `snapshot_`, then the policy id, then `.txt`. |
| `Handler.FileNameInjective` | bot.js:90 | Different policy ids get different file names. |
| `Handler.OutputEffects` | bot.js:91-102 | Once a snapshot exists: the write comes first and there are two to four effects. The reply with the file is second exactly when the write completed. The last effect is the error reply exactly when some write, reply or unlink threw. |
| `Handler.SnapEffects` | bot.js:60-103 | Every handling of `snap` starts with a GET carrying a `null` cursor and page size 100. It ends either with the fixed error reply or with the unlink of the policy's file. |
| `Handler.SnapFiles` | bot.js:90-102 | A handling touches no file other than the policy's report file. If that file exists afterwards, it either holds what it held before or holds the snapshot. |
| `Handler.Host.RecordRequests` | bot.js:65-74 | Appends one GET per request to the trace: the policy id, page size 100 and the cursor sent. Files are untouched. |
| `Handler.Host.WriteFileSync` | bot.js:91 | Records the write. When it succeeds, the file holds the content. |
| `Handler.Host.Reply` | bot.js:93-96 | Records a reply and leaves the files unchanged. |
| `Handler.Host.UnlinkSync` | bot.js:98 | Records the unlink. When it succeeds, the file is gone. |
| `Handler.Host.Snap` | bot.js:57-103 | The handler appends exactly `SnapEffects` to the trace and leaves the files as `SnapFiles` says. |
| `Handler.Host.Handle` | bot.js:51-56 | Only a command named `snap` is handled. Any other event changes neither the trace nor the files. |
| `Handler.FetchFailureOnlyErrorReply` | bot.js:63-103 | A failed request, after any number of pages that asked for more, leads to the GETs and then only the fixed error reply. Nothing is written and the files are unchanged. |
| `Handler.MalformedRecordOnlyErrorReply` | bot.js:85-103 | A fetched element without `assets` leads to the GETs and then only the fixed error reply. Nothing is written and the files are unchanged. |
| `Handler.SuccessfulSnapshot` | bot.js:60-98 | A chained run of well-formed pages with no I/O failure leads to one GET per page. Then the snapshot of all holders in fetch order is written, a reply carries the file, and the file is unlinked, in that order. The report file is not left behind. |
| `Handler.EmptySnapshotIsSent` | bot.js:85-96 | A single empty page still writes an empty report and replies with it. |
| `Handler.AfterFetchOrder` | bot.js:85-103 | After the GETs, every unlink comes right after a reply with that file that completed. A write happens only when a snapshot exists, and it writes that snapshot to the policy's file. |
| `Handler.UnlinkFollowsCompletedReply` | bot.js:93-98 | Every unlink comes right after a reply with that file, and only when that reply completed. |
| `Handler.ReplyFailureKeepsFile` | bot.js:91-102 | If the reply with the file throws, the error reply follows it and nothing is unlinked. The written report stays on disk. |
| `Handler.WriteOnlyCompleteSnapshot` | bot.js:85-91 | A write happens only when every request succeeded and every holder was formatted. It writes the policy's file with the full snapshot. |

## Left out

- The Discord client, its intents, the `ready` log and `client.login` (bot.js:12-17, 47-49, 107): SDK lifecycle with no logic.
- The command declaration and its REST registration (bot.js:19-45): a single network call that logs failures and continues.
- Loading configuration from the environment (bot.js:1, 6-10): the base URL and API key are opaque and do not appear in the model.
- The URL, the query string and the `api-key` header of each GET (bot.js:65-74): a request is modelled by the policy id, the page size 100 and the cursor it carries.
- Console logging (bot.js:58, 83, 101): it has no effect on the outcome.
- Races between concurrent invocations sharing one file name: the model is sequential.
- The remote API is a finite script. A remote that keeps returning truthy cursors forever makes the source loop forever. In the model, a request after the script is used up fails with `NoResponse`, an outcome that belongs to the model only, and the handler then sends the error reply. That error reply has no counterpart in the source, which keeps fetching, or waits forever since `axios.get` is given no timeout (bot.js:66-74).
- An `address` that is `null` or any other non-string value is not modelled. A template literal renders `null` as `Address: null`, while `AddressText` yields only the string itself or `undefined`.
- `Host.RecordRequests` appends the GETs to the trace after the loop has finished, not one by one. Nothing else happens between them, so the order of the trace is the same.
- Only `null`, an absent field and a string are modelled as cursor values. Other JSON values, such as numbers or booleans, are not.
- A `data` field that is present but is not an array is not modelled, and neither is an `assets` field that is not an array. A body that cannot be read at all is the `MalformedBody` fetch error.
- A reply that is attempted is recorded whether it succeeds or not. What happens when the error reply itself throws is not modelled. In the source that is an unhandled rejection, and a second reply after a successful one is refused by the chat platform.
- A write that throws leaves the files unchanged in the model. A partially written file is not modelled.
