# Gold price panel: a verified model of its core logic

The repository scrapes Thai gold prices from the Gold Traders Association site
into a JSON cache (a list of price records), and several scripts consume that
cache. They render a video panel, post to Blogger and Facebook, notify Telegram,
serve a small web page and check whether the data is still fresh. A driver runs
the scraper, skips updates it has already handled, runs the publishing steps
and records each handled update in an SQLite ledger.

This project models the logic under that glue, one Dafny module per script:

| module | script | form |
|---|---|---|
| `MainWorkflow` | `main_workflow.py` | a `Ledger` class holding the processed `(nqy, asdate)` rows, and the driver `RunWorkflow` as a method that walks the steps and returns the exit code and the trace of steps taken |
| `GetGold` | `getgold.py` | `parse_be_datetime` as functions over a strptime-style scanner; `scrape_gold_data` as a method with the retry loop and the row loop (`Records.CollectRows`); `main`'s exit codes |
| `GetGoldV3` | `getgold_v3.py` | the row mapping with its swapped column order, the diff cleaning, and the newest-first sort as an in-place insertion sort over an `array` with precomputed keys |
| `AppPanel`, `TextWrap`, `PanelText` | `app.py` | Thai detection as a loop with early return; `wrap_text` as nested loops proved against the greedy wrap functions; the Thai caption; `format_entry`; latest/previous selection |
| `ClipPanel` | `pyclipgold.py` | the word-only `wrap_text`, `arrow_and_color`, the deltas and the up-arrow flags |
| `FacebookPost` | `facebook_post.py` | the `FacebookGoldPost` class with its `latest_price` field; `get_trend_emoji` and `get_trend_color_text` as `TrendEmoji` and `TrendColorText`, the advice of `create_post_detailed` as `Advice`, and the comparison index |
| `TelegramNotify` | `telegram_notify.py` | `format_gold_message` as `FormatGoldMessage` over its lines (`MessageLines`), the trend rule (`Trend`), and the credential guards of the two senders |
| `BloggerPost` | `pypost_gold.py` | the sign prefix (`Prefix`), status icon (`StatusIcon`), title (`Title`) and colour (`ChangeColour`) of `run_auto_post` |
| `Freshness` | `check_and_update_gold.py` | `check_data_freshness` with the clock as a parameter |
| `GoldImgApp` | `pygold_img/app.py` | `load_data`, `format_thai_date`, and `index` as a method (the sum loop, the in-place reverse, the display loop) proved equal to the page function `IndexPage` |
| `Records`, `PyStr`, `Calendar` | shared | the record type and the cache-file states; the Python string and integer built-ins the scripts rely on (`split`, `join`, `strip`, `replace`, `int()`, `str()`, `"{:,}"`, negative indexing); `datetime.strptime`/`strftime` for the two formats in use, and epoch seconds |

A record is a map from keys to strings. The cache file is one of four states:
missing, not valid JSON, a JSON list of records, or some other JSON object.
Each loader behaves differently on each state. The scripts disagree on which end
of the list is the latest record. `main_workflow.py`, `facebook_post.py`,
`telegram_notify.py`, `pypost_gold.py`, `app.py` and `pyclipgold.py` take
`data[-1]`. `check_and_update_gold.py` takes `data[0]`. `getgold.py` reverses
the table so that its newest row comes first. The model keeps each choice as
written.

The font measure `draw.textlength` is a parameter of the wrappers (`Measure`,
any function from strings to real numbers). Child processes, HTTP responses, the
clock and the scraped HTML table are parameters as well.

## Model

| member | source | states |
|---|---|---|
| MainWorkflow.Ledger.constructor | main_workflow.py:13-25 | the ledger starts with the given table state and rows |
| MainWorkflow.Ledger.InitDatabase | main_workflow.py:17-25 | creating the table when it exists is a no-op: the rows are unchanged and the table exists afterwards |
| MainWorkflow.Ledger.IsAlreadyProcessed | main_workflow.py:30-40 | true iff a row with exactly that (nqy, asdate) pair exists |
| MainWorkflow.Ledger.MarkAsProcessed | main_workflow.py:42-56 | the pair is appended only when absent (the UNIQUE constraint, the IntegrityError swallowed); afterwards it occurs exactly once and every other pair's count is unchanged |
| MainWorkflow.CountPositiveIffPresent | main_workflow.py:38-40 | `COUNT(*) > 0` holds iff the pair is among the rows |
| MainWorkflow.CountOfUnique | main_workflow.py:23 | with UNIQUE(nqy, asdate) no pair is counted more than once |
| MainWorkflow.CountOfAppend | main_workflow.py:47-50 | an INSERT adds one to the inserted pair's count and leaves every other count alone |
| MainWorkflow.RunScript | main_workflow.py:59-90 | success iff the child exited with code 0; a timeout or an exception is failure |
| MainWorkflow.LatestToProcess | main_workflow.py:92-108 | the record processed is the last element of a non-empty list, and only when it is a non-empty dict; nothing for a missing file, a non-list or an empty list |
| MainWorkflow.RunWorkflow | main_workflow.py:111-163 | scraper failure gives exit 1 after init and scrape only; no record gives exit 1 before the ledger check; a known pair gives exit 0 without render, publish or ledger write; otherwise video, Blogger, Telegram run in that order whatever their outcome and the pair is marked once, last |
| MainWorkflow.RunTwice | main_workflow.py:139-163 | a second run over the same data stops at the ledger check, and the ledger holds the pair exactly once |
| Records.LastOfList | telegram_notify.py:22-39 | load_latest_gold_price gives the last element of a non-empty list and None for anything else |
| Records.Get | telegram_notify.py:43-51 | `dict.get(key, default)`: the stored value when present, the default otherwise |
| Records.RecordsOfRowsAppend | getgold.py:65-85 | the records of consecutive stretches of rows follow one another |
| Records.RecordsOfOneRow | getgold.py:66-68 | a row shorter than nine cells adds nothing; a full row adds exactly its own record |
| Records.RecordsOfFullRows | getgold_v3.py:68-91 | when every row has nine cells, record i is the record of row i, in row order |
| Records.CollectRows | getgold_v3.py:65-91 | the appending loop builds exactly one record per row of at least nine cells, in row order |
| GetGold.ReadBeDatetime | getgold.py:31-44 | a result is a valid date and time with zero seconds |
| GetGold.ParseBeDatetime | getgold.py:31-44 | returns a string exactly when the input is read, and that string parses back under '%Y-%m-%d %H:%M:%S' to the date and time read |
| GetGold.BeYearToCe | getgold.py:37-40 | on success the input is two whitespace-separated parts, the date three '/'-separated parts, and the CE year is the BE year minus 543 |
| GetGold.ParseBeDatetimeOfTable | getgold.py:31-42 | every valid 'dd/mm/BE HH:MM' converts to the ISO text of the CE date with seconds 00 (so '28/10/2568 09:25' gives '2025-10-28 09:25:00') |
| GetGold.WithIso | getgold.py:69-84 | cells 0..8 become asdate, nqy, blbuy, blsell, ombuy, omsell, goldspot, bahtusd, diff; asdate_iso is present exactly when given |
| GetGold.FirstAnswer | getgold.py:48-91 | the first attempt that does not raise; every earlier attempt raised |
| GetGold.Range | getgold.py:93-94 | the attempts after which the loop sleeps, in order |
| GetGold.ScrapeGoldData | getgold.py:46-96 | at most `retries` attempts; it sleeps after every failed attempt but the last; the data is the reversed records of the first answering attempt's table after its header, [] for no table or at most one row, [] after all attempts fail |
| GetGold.NewestRowFirst | getgold.py:87-88 | the table's last (newest) row becomes the first record |
| GetGold.GetGoldMain | getgold.py:105-129 | no data: writes [] and exits 2; otherwise saves, then posts, and exits 0 only for status 201, 3 with no status, 4 for any other status |
| GetGoldV3.CleanDiff | getgold_v3.py:78 | the cleaned diff has no surrounding whitespace and is never longer than the cell |
| GetGoldV3.ReplaceShrinks | getgold_v3.py:78 | removing a non-empty label never lengthens a string |
| GetGoldV3.CleanDiffOfLabel | getgold_v3.py:78 | a "Change " or "change " label is removed and a clean value is kept as it is |
| GetGoldV3.RecordOfRowV3 | getgold_v3.py:76-90 | exactly the nine keys; asdate is today, a space and cell 1; nqy=cell0, omsell=cell2, ombuy=cell3, blsell=cell4, blbuy=cell5, goldspot=cell6, bahtusd=cell7; diff is cell 8 cleaned |
| GetGoldV3.GetGoldPriceData | getgold_v3.py:32-93 | a navigation error or a missing #history-body gives []; otherwise one record per row of at least nine cells, in row order |
| GetGoldV3.AsdateReadsBack | getgold_v3.py:38-77 | today's date, a space and an HH:MM time cell parse back under '%d/%m/%Y %H:%M' to today at that time |
| GetGoldV3.SortKey | getgold_v3.py:100-103 | a key exists iff asdate is present and parses as '%d/%m/%Y %H:%M', and it is that moment's epoch seconds |
| GetGoldV3.KeysOf | getgold_v3.py:100-103 | all keys are computed before sorting; the keys exist iff every record has one |
| GetGoldV3.InsertingStarts | getgold_v3.py:100-103 | insertion invariant: a newest-first prefix is the start of an insertion |
| GetGoldV3.InsertingSteps | getgold_v3.py:100-103 | insertion invariant: one swap moves the inserted key one place on |
| GetGoldV3.InsertingEnds | getgold_v3.py:100-103 | insertion invariant: when the inserted key is placed the prefix is newest-first |
| GetGoldV3.SortNewestFirst | getgold_v3.py:100-106 | sorts in place iff every record has a key; the result is a permutation; if a key fails the list is left as it was |
| GetGoldV3.NewestFirstByTime | getgold_v3.py:100-103 | ordered keys mean no record is older than a later one |
| GetGoldV3.SaveAndSortJson | getgold_v3.py:95-113 | the written list is a permutation of the input, sorted newest first when every asdate parses and unchanged otherwise; it is written either way |
| GetGoldV3.V3Main | getgold_v3.py:115-135 | no data: exit 1 with nothing written; otherwise saved then posted, exit 0 for status 200 or 201, 3 for no status, 4 for any other |
| GetGoldV3.RunV3Main | getgold_v3.py:115-135 | the same list is written and then posted, a permutation of the scraped data, newest first when every asdate parses and in scraped order otherwise; exit codes as V3Main |
| AppPanel.ContainsThai | app.py:61-67 | true iff some character lies in U+0E00..U+0E7F |
| AppPanel.ParagraphLinesModes | app.py:77-105 | an empty paragraph gives one empty line; character mode concatenates back to the paragraph, and each line fits or is one character and cannot take the next character; word mode joins back with " ", a line of two or more words fits, and no line could take the next word |
| AppPanel.ParagraphLinesKeep | app.py:77-105 | every paragraph gives at least one line, and no line holds a character its paragraph lacks other than the joining space |
| AppPanel.WrapText | app.py:70-106 | the loops produce each paragraph's lines in order, joined by "\n" |
| AppPanel.WrapTextLines | app.py:106 | the wrapped text splits on "\n" into exactly those lines |
| AppPanel.FormatEntryLines | app.py:188-205 | a header and exactly three lines, each missing field shown as "-" |
| TextWrap.CharWrapConcat | app.py:84-93 | character mode: the lines concatenate back to the paragraph |
| TextWrap.CharWrapLinesOk | app.py:85-91 | character mode: every line fits the width or is a single character |
| TextWrap.CharWrapGreedy | app.py:87-91 | character mode: a line is broken only when its next character would not fit |
| TextWrap.CharWrapLoop | app.py:84-93 | the character loop computes the greedy character wrap |
| TextWrap.WordWrapJoin | pyclipgold.py:53-66 | word mode: joining a paragraph's lines with " " gives the paragraph back |
| TextWrap.WordWrapFits | pyclipgold.py:58-65 | word mode: the first word of a line is placed unconditionally; a line of two or more words fits the width |
| TextWrap.WordWrapGreedy | pyclipgold.py:60-65 | word mode: a line is broken only when its next word would not fit |
| TextWrap.WordWrapEmpty | pyclipgold.py:53-56 | an empty paragraph yields exactly one empty line, since "".split(" ") is [""] |
| TextWrap.WordWrapLoop | app.py:96-105 | the word loop computes the greedy word wrap |
| TextWrap.WrapAllAppend | app.py:77 | the lines of consecutive paragraphs follow one another |
| TextWrap.WrapAllSplit | pyclipgold.py:67 | joined by "\n", the lines split back into themselves when no line holds a line break |
| ClipPanel.WordWrapKeeps | pyclipgold.py:53-66 | every paragraph yields a line, and no line holds a character its paragraph lacks other than the space |
| ClipPanel.WrapText | pyclipgold.py:51-67 | the loops produce each paragraph's word-wrapped lines, joined by "\n" |
| ClipPanel.WrapTextLines | pyclipgold.py:67 | the wrapped text splits on "\n" into exactly those lines |
| ClipPanel.ArrowAndColor | pyclipgold.py:193-200 | None gives "—" in grey; positive is green, negative red (each iff); zero gives "0"; a non-zero delta is an arrow, a space and the magnitude |
| ClipPanel.ArrowMagnitude | pyclipgold.py:196-199 | "▲ " for a rise and "▼ " for a fall, then the magnitude with thousands separators, which reads back as the absolute delta |
| ClipPanel.Delta | pyclipgold.py:431-441 | a delta exists iff there is a non-empty previous entry and both values parse, and it is current minus previous |
| ClipPanel.UpFlag | pyclipgold.py:452-453 | the up-arrow flag holds iff the delta is None or at least 0 |
| ClipPanel.UpFlagMatchesColour | pyclipgold.py:448-453 | the arrow points down exactly when the cell is red |
| ClipPanel.UpUnlessCheaper | pyclipgold.py:431-453 | with both prices read, the arrow points down iff the price fell |
| PanelText.MonthName | app.py:209-230 | TH_MONTHS[m - 1] is defined for m in -11..12, and only 1..12 with the check |
| PanelText.ReadThaiDate | app.py:225-232 | a caption needs exactly two whitespace-separated parts; its time is "เวลา " + the time part + " น." |
| PanelText.ThaiDateTime | app.py:222-235 | the time text is empty iff the input could not be read, and then the date text is the input unchanged (pyclipgold.py:173-186 is the same code) |
| PanelText.ThaiDateTimeOf | app.py:222-233 | 'd/m/y t' with m in 1..12 gives ("{int d} {TH_MONTHS[m-1]} {int y}", "เวลา t น.") |
| PanelText.MonthZeroIsDecember | app.py:230 | as written, month 0 is captioned December |
| PanelText.ThaiDateTimeChecked | app.py:222-235 | with the month range checked, the caption falls back to (asdate, "") when the month cannot be read |
| PanelText.CheckedMonth | app.py:230 | the checked caption equals the original for months 1..12 and falls back for any other month |
| PanelText.LatestAndPrev | app.py:656-657 | latest is the last entry or {} for none; prev is the second-to-last iff there are at least two (pyclipgold.py:517-518 selects the same way) |
| FacebookPost.TrendTextsAgree | facebook_post.py:33-57 | the emoji word and the colour text classify a diff the same way, and both are "" exactly when it does not parse |
| FacebookPost.AdviceFollowsTrend | facebook_post.py:121-133 | take-profit advice only for a rise, accumulate advice only for a fall, follow-up iff the diff does not parse, steady for no change |
| FacebookPost.AdviceBoundary | facebook_post.py:126-131 | exactly +100 or −100 is still steady |
| FacebookPost.FormatPrice | facebook_post.py:29-31 | the price is returned unchanged |
| FacebookPost.CompareIndex | facebook_post.py:191 | min(2 * hours, len − 1): at most both bounds, and equal to one of them |
| FacebookPost.CompareIndexFromFront | facebook_post.py:191-192 | as written, with more than 4 * hours + 1 entries the entry compared with is more than 2 * hours updates back |
| FacebookPost.CompareIndexBack | facebook_post.py:191-192 | the intended index is 2 * hours entries before the latest, or the oldest entry when there are fewer |
| FacebookPost.CompareIndicesAgree | facebook_post.py:191-192 | the two indices agree iff there are exactly 4 * hours + 1 entries |
| FacebookPost.ChangeTrend | facebook_post.py:199 | the comparison trend word follows the sign of the change, each case an iff |
| FacebookPost.BuyChange | facebook_post.py:194-197 | the change exists iff both bar-buy fields are present and parse, and it is current minus previous |
| FacebookPost.ComparisonOf | facebook_post.py:185-215 | a comparison post is made exactly when the list is non-empty, the comparison index is in range, both buy prices parse and the fields the post reads are present; current is the last entry, previous the entry at the comparison index, the hours are the argument, and the trend and amount follow the change |
| FacebookPost.ComparisonAmount | facebook_post.py:193-215 | the amount shown with "{:,}" reads back, commas removed, as the size of the change in bar buy price |
| FacebookPost.FacebookGoldPost.constructor | facebook_post.py:7-9 | no price is loaded at first |
| FacebookPost.FacebookGoldPost.LoadLatestPrice | facebook_post.py:11-27 | a non-empty list sets the latest price to its last element and returns True; a missing file, bad JSON or an empty list returns False and leaves the field alone; a non-empty object raises |
| FacebookPost.FacebookGoldPost.PostData | facebook_post.py:61-64 | a post is built only from a set, non-empty latest price |
| FacebookPost.FacebookGoldPost.CreatePostBasic | facebook_post.py:59-92 | None iff no price is loaded; a KeyError iff a read field is missing; otherwise the post shows the record's trend texts |
| FacebookPost.FacebookGoldPost.CreatePostShort | facebook_post.py:94-112 | None iff no price is loaded; a KeyError iff a read field is missing; otherwise the post shows the trend word |
| FacebookPost.FacebookGoldPost.CreatePostDetailed | facebook_post.py:114-177 | None iff no price is loaded; a KeyError iff a read field is missing; otherwise the post shows the loaded record with the trend emoji, the colour text and the advice for its diff |
| FacebookPost.FacebookGoldPost.CreatePostWithComparison | facebook_post.py:179-219 | None iff no price is loaded; otherwise the comparison post, or the basic post when anything in the comparison fails |
| TelegramNotify.Trend | telegram_notify.py:53-59 | "📉 ลง" iff the diff starts with "-", "📈 ขึ้น" iff with "+", "➡️ คงที่" otherwise |
| TelegramNotify.MissingDiffIsDown | telegram_notify.py:49-55 | a record without a diff shows "-" and is reported as falling |
| TelegramNotify.UnsignedIsSteady | telegram_notify.py:58-59 | a diff written without a sign is reported as steady |
| TelegramNotify.MessageSplit | telegram_notify.py:61-80 | for single-line values the message is exactly twenty lines |
| TelegramNotify.MessageFieldOrder | telegram_notify.py:61-80 | the lines end with date, round, bar buy and sell, jewellery buy and sell, change, spot and rate, in that order |
| TelegramNotify.SendTelegramMessage | telegram_notify.py:84-113 | nothing is sent when the config is missing, the token or chat id is missing or empty, or the token contains "YOUR_"; otherwise sent iff status 200 |
| TelegramNotify.SendTelegramVideo | telegram_notify.py:115-129 | the same guard, and nothing is sent when the video file is missing |
| TelegramNotify.PlaceholderNeverSent | telegram_notify.py:92-94 | a token holding "YOUR_" anywhere is never used |
| BloggerPost.Prefix | pypost_gold.py:60 | "+" iff the diff does not start with "-" and is not "0"; "" otherwise |
| BloggerPost.StatusIconCases | pypost_gold.py:61 | ▲ iff the prefix is "+", ▼ iff the diff starts with "-", ● iff the diff is exactly "0" |
| BloggerPost.PlusDoubled | pypost_gold.py:60-63 | a diff already starting with "+" is shown with a second "+" |
| BloggerPost.MinusKept | pypost_gold.py:60-63 | a negative diff is shown as it is |
| BloggerPost.ChangeColour | pypost_gold.py:81 | green iff the prefix is "+", red otherwise |
| BloggerPost.RunAutoPost | pypost_gold.py:42-63 | a read failure returns before any post iff the file is not a non-empty list; for a non-empty list the post is ready iff the last record has the seven fields read, and a KeyError otherwise; the title embeds nqy, asdate and prefix + diff; the icon, signed diff and colour are those of the diff |
| Freshness.TimeText | check_and_update_gold.py:32 | asdate_iso when present and non-empty, else asdate |
| Freshness.ParseLatest | check_and_update_gold.py:35-40 | the format is chosen by whether the asdate_iso key exists; a result is a valid date and time |
| Freshness.MinutesWithin | check_and_update_gold.py:47-50 | an age in minutes is within the bound iff its seconds are within 60 times the bound |
| Freshness.Aged | check_and_update_gold.py:44-57 | fresh iff the age in seconds is at most 60 × max_age_minutes; the age is reported in minutes |
| Freshness.CheckDataFreshness | check_and_update_gold.py:11-64 | no data, a missing file or bad JSON gives (False, None, None); the first record is checked; an unparsable time gives not fresh with the raw text and no age; a parsed time gives exactly the aged report for it, fresh iff the age is within the bound |
| Freshness.FreshnessBoundary | check_and_update_gold.py:50 | the bound is inclusive: exactly max_age_minutes old is fresh, a second older is not |
| Freshness.FormatIsoLength | check_and_update_gold.py:32 | an ISO timestamp is never empty, so `or` takes it |
| Freshness.IsoRecordDated | check_and_update_gold.py:31-37 | a record carrying the scraper's ISO timestamp is dated by it, and the first record is the one checked |
| Freshness.DmyRecordDated | check_and_update_gold.py:38-40 | a record without asdate_iso is dated by its '%d/%m/%Y %H:%M' asdate |
| Freshness.FreshEarlier | check_and_update_gold.py:45-50 | freshness only wears off as the clock advances |
| GoldImgApp.LoadData | pygold_img/app.py:7-14 | an absent file is the empty list, a list is returned as is |
| GoldImgApp.FormatThaiDate | pygold_img/app.py:16-25 | anything other than three '/'-separated parts, or a day or month that int() rejects, is returned unchanged |
| GoldImgApp.FormatThaiDateOf | pygold_img/app.py:21-25 | 'd/m/y' gives "{int d} {thai_months[m]} {y}", the year verbatim, index 0 the blank, an index outside the list the input back |
| GoldImgApp.MonthNamesAgree | pygold_img/app.py:17-20 | thai_months[m] is the same name as app.py's TH_MONTHS[m - 1] |
| GoldImgApp.ParseEach | pygold_img/app.py:33-35 | value k is item k's diff parsed, in order |
| GoldImgApp.SumOfDefined | pygold_img/app.py:32-36 | the total exists iff every diff parses |
| GoldImgApp.SumOfAppend | pygold_img/app.py:32-36 | the total over two stretches is the sum of their totals |
| GoldImgApp.SumOfReverse | pygold_img/app.py:32-43 | the total does not depend on the order of the values |
| GoldImgApp.SumDiffsOrderFree | pygold_img/app.py:32-43 | the total exists iff each item's diff parses, and reversing the items leaves it unchanged |
| GoldImgApp.SumParsed | pygold_img/app.py:32-36 | the accumulating loop computes the sum of the parsed values |
| GoldImgApp.TotalDiff | pygold_img/app.py:32-36 | the loop computes the sum of the diffs |
| GoldImgApp.Displayed | pygold_img/app.py:45-48 | an item is shown iff its asdate has at least two space-separated parts; display_date is the Thai date of the first and display_time the second |
| GoldImgApp.ShowEach | pygold_img/app.py:45-48 | all items are shown iff each can be, one shown item per item |
| GoldImgApp.IndexPageShows | pygold_img/app.py:28-51 | the page lists exactly the reverse of file order with dates added, and its "{:,}" total reads back, commas removed, as the order-independent sum of the diffs |
| GoldImgApp.NoFilePage | pygold_img/app.py:7-14 | without a file the page is empty with total "0" |
| GoldImgApp.ReverseInPlace | pygold_img/app.py:43 | the in-place reverse leaves the list in reverse order |
| GoldImgApp.ShowAll | pygold_img/app.py:45-48 | the display loop updates every item in place as one update per item, and returns false when some item cannot be shown |
| GoldImgApp.Index | pygold_img/app.py:28-51 | the route's steps as they run compute exactly the page function |
| PyStr.SplitJoin | app.py:106 | a list of parts free of the separator splits back out of its join |
| PyStr.JoinSplit | app.py:77 | splitting and joining on one separator gives the text back |
| PyStr.IntToStringRoundTrip | app.py:227-231 | `int(str(n)) == n` for every integer |
| PyStr.GroupThousandsRoundTrip | pygold_img/app.py:35-39 | "{:,}" then removing commas and int() gives the number back |
| PyStr.PyIndex | app.py:230 | a Python index is defined iff it is within −len..len−1, and a negative one counts from the end |
| PyStr.Reverse | getgold.py:88 | element i of the reverse is element len − 1 − i of the input |
| Calendar.EpochSecondsOrder | check_and_update_gold.py:46-47 | epoch seconds order date-times exactly as time does, and equal seconds mean equal date-times |
| Calendar.IsoRoundTrip | check_and_update_gold.py:37 | a valid date-time printed as '%Y-%m-%d %H:%M:%S' parses back to itself |
| Calendar.DmyHmRoundTrip | check_and_update_gold.py:40 | a valid date-time with zero seconds printed as '%d/%m/%Y %H:%M' parses back to itself |
| Calendar.DaysInMonth | check_and_update_gold.py:46 | every month has 28 to 31 days |

## Left out

- Money values are read by `float()` in the source. Here they are read as whole numbers with optional thousands commas (`ParseGrouped`). Decimal fractions and float rounding are not modelled.
- `"{:,.0f}"` and `"{:,.2f}"` formatting is modelled on integers only, as `GroupNat`.
- `int()` is modelled on ASCII digits, with an optional sign, surrounding whitespace and single underscores between digits. The `strptime` fields (`Calendar.TakeDigits`, used by `Calendar.ParseDmyHm` and `Calendar.ParseIso`) also read ASCII digits only, although Python's `\d` there matches any Unicode decimal digit. Non-ASCII Unicode digits, such as Thai digits, are modelled by neither.
- Drawing and video are not modelled: the PIL panel, gradients, chips, triangles, moviepy clips and `build_video` compositing, as well as `facebook_image_post.py`. Only the values these functions compute from the data are modelled.
- Network clients are not modelled: the HTTP requests, Playwright, BeautifulSoup, the Blogger and Facebook APIs and `get_chat_id.py`. A scraped table is given as rows of cell texts. A response is given as its status code.
- SQLite is not modelled. The ledger is the sequence of its rows. The `id` and `processed_at` columns are not modelled.
- `run_script` internals and captured output are not modelled. Each child run is an exit code, a timeout or an exception.
- The clock is a parameter and is taken to whole seconds. `time.sleep` durations are not modelled: `GetGold.ScrapeGoldData` records only the attempts after which it sleeps.
- The freshness message text, the Flask route wrapper, the HTML template, interactive menus, `facebook_post_all_in_one.py`, `pyblogs.py`, `pychk_blogs.py`, `reset_db_temp.py` and `web_app.py` are not modelled.
- JSON top-level scalars (a bare number or string) are not modelled. The cache file is missing, malformed, a list of records, or an object.
- `GetGoldV3.SortNewestFirst`: stability is not stated. The insertion sort swaps only on a strict `<`, so equal keys keep their order as they do under Python's `list.sort`, but no contract says so. That the result is a permutation and newest-first is proved.
- `GetGold.GetGoldMain`: a failed write in `save_to_json` (getgold.py:26-29, outside any `try`) raises out of `main` and ends the script with exit code 1. No `Outcome` of the model has that code; file writes always succeed here.
- `GetGoldV3.SaveAndSortJson`: a failed write (getgold_v3.py:108-113) is only reported, and the data is still posted. The model does not represent a write's success or failure; `SaveJson` is the write attempted.
- `GoldImgApp.SumParsed` and `GoldImgApp.ShowAll` take the per-record step as a function parameter. The loop is the same; `TotalDiff` and `Index` pass the source's step.
- `FacebookPost.FacebookGoldPost.CreatePostBasic`, `CreatePostShort` and `CreatePostDetailed` represent a post by the values it shows. The fixed Thai wording and layout are not modelled.
- `BloggerPost.RunAutoPost` stops before the Blogger API call. The HTML body beyond the title, icon and colour is not modelled.

## Findings

| source | as written | input that shows it | evidently intended | confidence | as-written member | corrected member |
|---|---|---|---|---|---|---|
| app.py:230 (also pyclipgold.py:181) | `TH_MONTHS[month - 1]` with month 0 indexes −1, so the caption reads December | "15/0/2568 17:23" gives ("15 ธันวาคม 2568", "เวลา 17:23 น.") | a month outside 1..12 is malformed input, and the caption falls back to (asdate, "") | not executed | PanelText.MonthZeroIsDecember | PanelText.CheckedMonth |
| facebook_post.py:191-192 | `prices[min(2 * hours, len - 1)]` counts from the oldest entry, while the latest is `prices[-1]` | 10 entries and hours = 1 compare the latest with entry 2, seven updates back, not two | compare with the entry 2 * hours updates before the latest | not executed | FacebookPost.CompareIndexFromFront | FacebookPost.CompareIndexBack |
