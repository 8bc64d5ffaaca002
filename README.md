# Omeka S → Discord daily notifier, modelled in Dafny

The job runs once a day. It asks an Omeka S archive for the items with media created today.
When a day yields too few items it looks back one day at a time, for at most thirty days. It
then posts the items to a Discord channel as messages of at most nine item embeds, each message
led by a header embed.

The model covers the two deterministic parts of the repository:

- **Message planning and item summaries** (`discord_notifier.py`, module `Notifier` in
  `notifier.dfy`). The thumbnail, description and format lookups and the truncation are
  functions. The source's two search loops are kept as methods (`GetItemDescription`,
  `GetItemFormat`), each proved equal to its function. `Plan` is the list of messages a run
  should post: messages split into chunks of nine, header footers, item embeds.
  `DiscordNotifier.SendNotification` is the sending loop. It is proved to leave on the channel
  log exactly `Trace(Plan(items), delivered)`: the first `delivered` planned messages, with a
  pause after each message except the last planned one. Any send may fail (`Send` chooses its
  outcome nondeterministically), and a failure ends the loop.
- **Lookback fetch** (`omeka_checker.py`, module `Checker` in `checker.dfy`). The items API is
  a parameter `fetch: (int, int) -> Option<seq<Item>>`. It gives one query's result for a
  window of days, or None when the request failed. Days are integers and `today` is fixed for
  the run. `GetItemsWithMedia` is the recursion. `Queries` counts the requests it makes, and
  `Gathered` is the concatenation of the windows' items. The lemmas prove three things. The
  lookback stops at the first day that stops it, judged on that day's own count. At most 31
  days are asked for. The result is every queried day's items, newest first.
  `DailyCheck` is the items gate of `main`.

Supporting modules: `Items` (`items.dfy`: the item records), `Decimal` (`decimal.dfy`: the
decimal rendering of counts in footers, with its round trip) and `Wrappers` (`wrappers.dfy`:
`Option`).

Data model. An item is `Item(title, id, properties, thumbnails)`. `title` and `id` are
`"o:title"` and `"o:id"`, None when absent. `properties` maps field names such as
`"dcterms:description"` to lists of `Entry(value)`, where `value` is the entry's `"@value"`.
`thumbnails` is `"thumbnail_display_urls"`, empty when absent. An embed is
`Embed(title, url, description, footer, thumbnail)`.

Notes on the code:

- The lookback is not switched by a configuration flag. It always runs, with `min_items = 9`.
- The lookback threshold is compared with each day's own count, not with the running total
  (`EveryShortDayIsFollowed`).
- `main` logs "Failed to fetch items" when today's lookback finds no items, because
  `get_today_items` returns None for an empty result as well. Its "No items to send" branch
  can therefore never run.

## Model

| member | source | states |
|---|---|---|
| `Notifier.Thumbnail` | discord_notifier.py:54-66 | no or an empty thumbnail map gives None; otherwise a non-empty medium URL, else a non-empty large URL, else the small URL exactly as it stands (absent or '' included) |
| `Notifier.ThumbnailPreference` | discord_notifier.py:58-63 | a usable thumbnail exists iff one of medium, large, small is non-empty, and it is the first such in that order |
| `Notifier.Truncate` | discord_notifier.py:77-79 | a value of at most max_length characters is unchanged; a longer one becomes its first max_length characters plus "..."; length at most max_length + 3 |
| `Notifier.DescriptionSource` | discord_notifier.py:72-90 | a description value that is found is never empty |
| `Notifier.DescriptionSourceFirst` | discord_notifier.py:71-92 | the value found is entry [0]'s value of the first field whose entry [0] has a non-empty value; none when no field has one |
| `Notifier.DescriptionReadsOnlyFirstEntries` | discord_notifier.py:73-86 | two items whose description fields agree on entry [0] get the same description: later entries are never read |
| `Notifier.Description` | discord_notifier.py:68-92 | the description is never empty and is either "No description available" or at most max_length + 3 long |
| `Notifier.DescriptionSpec` | discord_notifier.py:70-92 | the description is the truncated value of the first of dcterms:description, bibo:content, o:description with text, else "No description available" |
| `Notifier.GetItemDescription` | discord_notifier.py:68-92 | the inline check plus the loop over the alternative fields computes exactly `Description` |
| `Notifier.FormatSource` | discord_notifier.py:101-113 | no format only when every format field is missing or an empty list |
| `Notifier.FormatSourceFirst` | discord_notifier.py:101-113 | the format is entry [0]'s value of the first non-empty list among dcterms:format, dcterms:type, o:media_type, even when that value is '' |
| `Notifier.FormatStopsWhereDescriptionGoesOn` | discord_notifier.py:102-104 | an item whose dcterms:format value is '' gets format '' although dcterms:type has a value, while an empty dcterms:description passes on to bibo:content |
| `Notifier.GetItemFormat` | discord_notifier.py:98-113 | the inline check plus the loop over the alternative fields computes exactly `Format` |
| `Notifier.ItemEmbed` | discord_notifier.py:151-176 | title defaults to "Untitled"; the url is the ark prefix followed by the id, or "Unknown ID"; footer present iff the format is non-empty; thumbnail present iff the URL is non-empty |
| `Notifier.BuildItemEmbed` | discord_notifier.py:152-174 | the loop body builds exactly `ItemEmbed(item)` |
| `Notifier.ItemEmbeds` | discord_notifier.py:150-176 | one embed per chunk item, in order |
| `Notifier.SingleChunk` | discord_notifier.py:132 | there is exactly one message iff there are 1 to 9 items, and none iff there are no items |
| `Notifier.Chunks` | discord_notifier.py:129-130 | (n+8)/9 chunks, each holding 1 to 9 items |
| `Notifier.FlattenChunksPrefix` | discord_notifier.py:129-130 | the first k chunks hold exactly the first min(9k, n) items |
| `Notifier.FlattenChunks` | discord_notifier.py:129-130 | the chunks concatenate back to the item list, in order, with no item lost or repeated |
| `Notifier.ChunkAt` | discord_notifier.py:129-130 | chunk k is items[9k .. min(9k+9, n)) |
| `Notifier.FooterDescribesChunk` | discord_notifier.py:140-146 | a single message's footer counts all items; otherwise message k+1 of N names the 1-based positions of the chunk's first and last items among all n |
| `Notifier.HeaderFooterText` | discord_notifier.py:140-146 | the footer text is "1 new item found", "{n} new items found" or "Message {k} of {N} - Items {a}-{b} of {n}", as `FooterText(FooterFor(n, i))` |
| `Notifier.HeaderEmbed` | discord_notifier.py:134-148 | the header is titled for the archive, links to it and carries the footer text |
| `Notifier.Plan` | discord_notifier.py:129-132 | one planned message per chunk |
| `Notifier.PlanAt` | discord_notifier.py:129-178 | message k is the header for index 9k followed by the embeds of items[9k .. min(9k+9, n)) |
| `Notifier.PlanShape` | discord_notifier.py:121-178 | no items, no message; otherwise (n+8)/9 messages, each a header followed by 1 to 9 item embeds |
| `Notifier.PlanCoversItems` | discord_notifier.py:150-178 | headers removed, the messages hold exactly one embed per item, in input order |
| `Notifier.BuildMessage` | discord_notifier.py:130-178 | the loop body builds exactly the planned message for the chunk at index i |
| `Notifier.TraceCounts` | discord_notifier.py:178-186 | a run that posted m messages posted exactly the first m planned ones, with m pauses, or N-1 when all N were posted |
| `Notifier.TraceLayout` | discord_notifier.py:178-182 | messages and pauses alternate: message k at position 2k, a pause at every odd position |
| `Notifier.TraceIsPrefix` | discord_notifier.py:184-186 | what an aborted run left on the channel is a prefix of what a complete run leaves |
| `Notifier.DiscordNotifier.Send` | discord_notifier.py:178 | a successful send appends the message to the channel log; a failed one leaves it as it was and counts one failed send |
| `Notifier.DiscordNotifier.Sleep` | discord_notifier.py:181-182 | a pause is appended to the channel log |
| `Notifier.DiscordNotifier.PostMessage` | discord_notifier.py:178-182 | posting message k+1 of N extends the log by one step of the trace (the message, then a pause unless k+1 = N); a failed send changes nothing but the failure count |
| `Notifier.DiscordNotifier.SendNotification` | discord_notifier.py:119-186 | the channel log gains exactly `Trace(Plan(items), delivered)`; fewer than all planned messages are posted exactly when one send failed, and none failed when all were posted; nothing when there are no items |
| `Decimal.NatToString` | discord_notifier.py:144-146 | a count prints as at least one digit, with no leading zero |
| `Decimal.ValueOfNatToString` | discord_notifier.py:146 | the printed count reads back as the count |
| `Decimal.NatToStringInjective` | discord_notifier.py:146 | different counts print differently |
| `Checker.GetItemsWithMedia` | omeka_checker.py:22-60 | None iff the first request failed; the window's own items come first; a sufficient window is returned unchanged |
| `Checker.Queries` | omeka_checker.py:45-50 | a call makes at least one request |
| `Checker.QueriesStopAtFirstStop` | omeka_checker.py:40-50 | the lookback stops at the first window that failed, held enough items on its own, or is thirty days old, and at no earlier window |
| `Checker.QueriesBound` | omeka_checker.py:45-50 | at most one request per day from start back to today-30, and no day older than today-30 is asked for |
| `Checker.LookbackResult` | omeka_checker.py:35-60 | the result is None iff the first request failed, else the items of every queried window, newest first, where a failed older day adds nothing |
| `Checker.EveryShortDayIsFollowed` | omeka_checker.py:40-54 | when every day is short on its own, all days back to today-30 are queried and all their items returned, however many accumulate |
| `Checker.EmptyDayLooksBack` | omeka_checker.py:40-56 | an empty day is never sufficient, even for min_items <= 0: the result is the previous day's result, or empty when that failed |
| `Checker.GetTodayItems` | omeka_checker.py:62-75 | None iff the request failed or no day had items; otherwise the non-empty gathered list |
| `Checker.TodayQueriesBound` | omeka_checker.py:62-68 | a daily run makes between 1 and 31 requests |
| `Checker.ItemThumbnail` | omeka_checker.py:96-108 | the module's own thumbnail lookup agrees with the notifier's on every item |
| `Checker.DailyCheck` | omeka_checker.py:110-142 | nothing is sent unless today's items are non-empty; if the connection is made, the channel receives the planned messages with their pauses, all of them unless a send failed, and then exactly one failed |

## Left out

- HTTP: `requests.get`, the query parameters, `raise_for_status` and JSON decoding are the `fetch` parameter. A successful response whose body is not a JSON array is not modelled.
- Dates: `datetime.now()` is read on every recursive call in the source; the model fixes `today` for the whole run, and the API's date-boundary semantics are outside the model.
- Discord client: construction, the token and channel-id checks, the `on_ready` callback, `connect` with its 30-second timeout and `close` are concurrency or SDK calls. `DailyCheck` models the connection outcome as a nondeterministic choice, and `Send` models each `channel.send` as one that may raise.
- `asyncio.sleep(1)` is only a `Pause` event; embed colours are not modelled.
- Logging, `log_new_items` (logging plus date parsing), `config.py` and `test_discord.py`, a manual script against live Discord.
- The `except Exception` fallbacks for malformed items ("Error retrieving description", a None format or thumbnail): properties are always lists of entries in the model, and entries always objects.
- `Notifier.FormatSource`: an entry whose "@value" is JSON null is modelled like an absent "@value", so the format is '' where the source returns None; the embed footer is unset in both cases.
- Titles and ids: a title present as JSON null is not distinguished from an absent one, and `"o:id"` is taken as its printed form.
