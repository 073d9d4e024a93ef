# dnsmasq web console: client-side state updates

This project models, in Dafny, the parts of the dnsmasq web console that
update state step by step. The rest of the console is presentation.

- **Live query log** (`LogsViewer`). A newest-first buffer of query records.
  Each tick puts one record in front and keeps at most 50. Clear empties it.
  The table shows the records whose lower-cased domain contains the
  lower-cased filter text. Each row is styled by its status. A "waiting" row
  appears when the buffer is empty.
- **Apply workflow** (`ConfigEditor`). Loading the configuration text on mount.
  Then "Apply Changes": test the text, stop if the test is invalid, otherwise
  save the text and restart the service. The workflow manages the `isSaving`
  flag and the result banner.
- **Suggested record** (`DnsRecords`). "AI Smart Add" appends one record built
  from a suggestion for the typed request. The footer shows the record count.
- **Data types** (`Types`). `DnsRecord` and `QueryLog` with their enumerations,
  as the shared type declarations give them.

Each React component becomes a class whose fields are the component's `useState`
variables. Each handler becomes a method with a `modifies` clause.

The backend and the suggestion service are external calls. They are not
modelled. What each call returned becomes a parameter of the method. Each call
the code makes is recorded in a ghost trace (`Editor.Calls`, `Panel.Requests`).
The trace keeps the text the call sent and the state the page showed while the
call was awaited. So the ordering properties are stated over that trace.

Facts about the code that the model keeps as they are:

- There is no rollback, no configuration history and no lock around apply.
- Apply reports success even when the save or the restart failed.
- `load` tests `if (saved)`. An empty saved string is falsy, so it gets the
  default text, just like a missing one.

## Model

| member | source | states |
|---|---|---|
| `Types.StatusName` | types.ts:23 | a status's run-time text is one of the four literals of the union type |
| `LogsViewer.Take` | components/LogsViewer.tsx:25 | `slice(0, n)` returns a prefix of length min(length, n) |
| `LogsViewer.Ticked` | components/LogsViewer.tsx:25 | after a tick the new record is at index 0, the previous records follow in their original order, and the length is min(old length + 1, 50) |
| `LogsViewer.TickOnFullBufferDropsOldest` | components/LogsViewer.tsx:25 | on a buffer of 50 a tick drops exactly the last (oldest) record and keeps the length at 50 |
| `LogsViewer.ReversedSnoc` | components/LogsViewer.tsx:25 | the newest arrival (the last one) comes first in the newest-first order |
| `LogsViewer.TakeAfterPrepend` | components/LogsViewer.tsx:25 | cutting the old buffer to n before prepending gives the same first n records as not cutting it |
| `LogsViewer.TicksKeepNewest` | components/LogsViewer.tsx:16-26 | after any run of ticks on a buffer of at most 50, it holds the 50 most recent records, newest first, then older ones in order |
| `LogsViewer.ToLower` | components/LogsViewer.tsx:76 | lowering keeps the length, lowers each character, and leaves no upper-case letter |
| `LogsViewer.ToLowerIdempotent` | components/LogsViewer.tsx:76 | lowering an already lowered text changes nothing |
| `LogsViewer.ToLowerSlice` | components/LogsViewer.tsx:76 | lowering a part of a text gives the same part of the lowered text |
| `LogsViewer.Includes` | components/LogsViewer.tsx:76 | `includes` is true exactly when the text occurs at some index of the string |
| `LogsViewer.Matches` | components/LogsViewer.tsx:76 | a record matches exactly when some part of its domain equals the filter, ignoring case |
| `LogsViewer.Visible` | components/LogsViewer.tsx:76 | the displayed records are exactly the buffered records whose lowered domain contains the lowered filter, and there are no more of them than buffered ones |
| `LogsViewer.VisibleDistributes` | components/LogsViewer.tsx:76 | filtering a concatenation is the concatenation of the filtered parts, so the filter keeps buffer order and adds nothing |
| `LogsViewer.VisibleSingle` | components/LogsViewer.tsx:76 | a single record is displayed exactly when it matches |
| `LogsViewer.EmptyFilterShowsAll` | components/LogsViewer.tsx:76 | an empty filter displays every buffered record, in order |
| `LogsViewer.FilterIgnoresCase` | components/LogsViewer.tsx:76 | two filters that lower to the same text display the same rows |
| `LogsViewer.FilterAsLowerCase` | components/LogsViewer.tsx:76 | a filter displays the same rows as its lower-case form |
| `LogsViewer.StatusStyle` | components/LogsViewer.tsx:31-38 | Blocked, Cached and Local each get their own class string, and every other status text gets the default, in both directions |
| `LogsViewer.ForwardedGetsDefault` | components/LogsViewer.tsx:36 | Forwarded is shown with the default style |
| `LogsViewer.StatusStyleSeparates` | components/LogsViewer.tsx:31-38 | over the four statuses, two records have the same style exactly when they have the same status |
| `LogsViewer.Rows` | components/LogsViewer.tsx:76-96 | the table body is one row per displayed record, in order, matching the filter and styled by `StatusStyle` of its status, then the waiting row, which appears exactly when the unfiltered buffer is empty |
| `LogsViewer.Viewer.constructor` | components/LogsViewer.tsx:6-7 | the panel starts with an empty buffer, an empty filter and no arrivals |
| `LogsViewer.Viewer.Tick` | components/LogsViewer.tsx:25 | a tick sets the buffer to `Ticked` of the old one and keeps the invariant: the buffer is the 50 most recent arrivals since mount or Clear, newest first |
| `LogsViewer.Viewer.Clear` | components/LogsViewer.tsx:55 | Clear leaves the buffer empty whatever it held, and forgets the arrivals |
| `LogsViewer.Viewer.SetFilter` | components/LogsViewer.tsx:50 | typing sets the filter text |
| `ConfigEditor.LoadConfig` | components/ConfigEditor.tsx:15-18 | load yields the saved text when it is present and non-empty, otherwise the fixed default; the result is never empty |
| `ConfigEditor.Editor.constructor` | components/ConfigEditor.tsx:7-21 | on mount the text is the loaded one, `isSaving` is false and no banner is shown |
| `ConfigEditor.Editor.Edit` | components/ConfigEditor.tsx:100 | typing sets the configuration text |
| `ConfigEditor.Editor.Apply` | components/ConfigEditor.tsx:23-46 | the test call is made first, with `isSaving` true and no banner; an invalid test makes no further call and shows the test's result; a valid test is followed by one save of the same text and then one restart, which sends no text, and the banner shows `{valid: true}` whatever they returned; `isSaving` is false on both exits and the text never changes |
| `ConfigEditor.Editor.ClearBanner` | components/ConfigEditor.tsx:45 | the timer hides the banner |
| `DnsRecords.Panel.constructor` | components/DnsRecords.tsx:7-13 | the table starts with the three sample records, an empty request and no loading flag |
| `DnsRecords.Panel.SetPrompt` | components/DnsRecords.tsx:45 | typing sets the request text |
| `DnsRecords.SuggestedRecord` | components/DnsRecords.tsx:20-26 | the appended record has the given id, type A, the suggestion's domain and ip, and the explanation as its comment |
| `DnsRecords.Panel.RecordCount` | components/DnsRecords.tsx:90 | the footer shows the number of records |
| `DnsRecords.Panel.AiSuggest` | components/DnsRecords.tsx:15-30 | an empty request changes nothing and makes no call; otherwise one request is made with the loading flag shown, and the flag is off at the end; no suggestion leaves records and request unchanged; a suggestion appends exactly one A record with its domain, ip and explanation as comment, keeps the earlier records in order, raises the footer count by one and clears the request |

## Left out

- Random record synthesis in the log panel (random picks, the clock, the reply time). The new record is a parameter of `Tick`.
- The interval and timeout timers. `Tick` and `ClearBanner` model what their callbacks do, not when they fire.
- `ToLower`: lowers only the ASCII letters A-Z, while JavaScript's `toLowerCase` lowers every Unicode letter. Strings are sequences of `char`; no UTF-16 detail is modelled.
- `Date.now()` record ids. The id is a parameter of `AiSuggest`.
- The suggestion service and the three backend endpoints: network calls whose results are parameters. A suggestion parsed from an empty reply (an object without fields) is not modelled; a suggestion is either absent or has all three fields.
- Concurrency between an awaited call and user input. Each handler is modelled as one atomic step. The code sends the text captured when the button was clicked, so the test and save calls carry the same text; the restart call carries none.
- Disabled buttons while `isSaving` or `isAiLoading` is set: rendering only, no handler checks them.
- The AI analysis panel of the editor, the dashboard, ad blocking, DHCP leases, the app shell and the translations: presentation or static data.
- The Go backend. Every handler runs a system command or writes a file, and the status figures are fixed numbers. main.go is not part of this model.
- Rollback, configuration history and an apply lock: the code implements none of them.
