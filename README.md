# TradeIland session controller and calendar scripts, in Dafny

This project models the core of the TradeIland scraping tool and proves properties of that
model. The core has three parts:

- **The authenticated session controller.** `TradeIslandAuthenticator` drives a browser page.
  It logs in by trying ordered lists of candidate selectors for the email field, the password
  field and the login button. It checks the logged-in state with a URL rule and then a list of
  post-login markers. It saves and restores the cookies file, and it navigates to user search,
  searches by nickname and opens a profile. `SessionManager` keeps the cookies file and the
  metadata file (`session_info.json`), which has a fixed expiry window.
- **The configuration helpers it reads.** `Settings._override_with_env_vars` writes
  environment variables into the nested YAML dictionary. `LoggerConfig._parse_file_size`
  converts the log size limit to bytes.
- **The four calendar scripts.** Each turns a workbook of trader sheets into one calendar
  table: a Date column plus one profit column per trader. The scripts are
  `create_calendar_sheet.py` (row 2 of each date column), `create_daily_calendar.py`
  (positional daily values from row 13), `create_correct_daily_calendar.py` ((day, profit)
  pairs from row 12) and `create_filtered_daily_calendar.py` (the same pairs, keeping only
  the days at least two traders recorded).

The browser page is a class, `Browser.Page`. Its `history` field holds the actions performed on
the page, and its `probes` field holds the selectors probed with `wait_for_selector`. Its
constant `env` is an oracle that gives the view after any history: the URL, the selectors that
resolve, the cookies, and whether the last action (or the load wait after it) raised.

Every authenticator method is proved against a specification function of that oracle. These
are `RunLogin`, `ClickFirst` and `RunSearch`, and each computes the actions performed, the
selectors probed and the result. The lemmas state what those functions guarantee. The two
session files are a class, `SessionStore.SessionFiles`, which the authenticator and the manager
share. The calendar scripts modify state only in local loops, so each loop is a method proved
equal to a recursive specification function, and the lemmas are about those functions.

## Model

| member | source | states |
|---|---|---|
| `Authenticator.ProfileSelectors` | scraping/auth/authenticator.py:340-346 | the profile candidates are the five listed: three built from the nickname, then two fixed ones |
| `Authenticator.FirstMatch` | scraping/auth/authenticator.py:105-112 | a found index resolves and no earlier candidate does; the result is "not found" exactly when no candidate resolves |
| `Authenticator.Probed` | scraping/auth/authenticator.py:106-110 | a lookup probes a prefix of its list in order; every probed candidate but the last fails to resolve; it stops at the first one that resolves, and probes the whole list exactly when none does |
| `Authenticator.Detect` | scraping/auth/authenticator.py:193-222 | a URL without "/login" that contains the base URL means logged in, with no probe; otherwise the result is logged in exactly when some indicator resolves |
| `Authenticator.AlreadyLoggedInShortCircuits` | scraping/auth/authenticator.py:89-92 | when the login page already looks logged in, `login` returns true with only the navigation: no fill, no click, no save |
| `Authenticator.LoginActions` | scraping/auth/authenticator.py:79-187 | for each outcome, the exact actions `login` performed: only the navigation when there is no email field; the email typed into an email candidate when there is no password field; that fill and the password typed into a password candidate when there is no button; both fills and a click on a login candidate when the second check is reached |
| `Authenticator.LoginResult` | scraping/auth/authenticator.py:174-187 | cookies are saved exactly when the second check passes; a true result always ends on a page the check calls logged in |
| `Authenticator.LookupProbesInOrder` | scraping/auth/authenticator.py:105-112 | every lookup probes a prefix of its list in order, and it succeeds exactly when the last probed selector resolves |
| `Authenticator.EmptyBaseUrlTrustsAnyUrl` | scraping/auth/authenticator.py:196-199 | with the default empty base URL, any URL without "/login" counts as logged in |
| `Authenticator.ClickFirstActions` | scraping/auth/authenticator.py:257-266 | the navigation steps only append clicks on their own candidates to the history |
| `Authenticator.ClickFirstProbes` | scraping/auth/authenticator.py:257-269 | a false result has probed every candidate; a true result has probed a non-empty prefix of them |
| `Authenticator.ClickFirstSuccess` | scraping/auth/authenticator.py:259-264 | a true result ends with a click on the last candidate probed; that candidate resolved before the click, and the click did not raise |
| `Authenticator.ClickFirstStep` | scraping/auth/authenticator.py:257-266 | one loop iteration: a candidate that does not resolve, or whose click raises, passes to the next candidate; a click that succeeds ends the step with true |
| `Authenticator.SearchOutcome` | scraping/auth/authenticator.py:288-330 | with no search box, the result is false and nothing is done; otherwise the nickname is typed into the first box found; a true result then ends with a click on the first button found, or with Enter pressed in the box when there is none |
| `Authenticator.Authenticator.FindFirst` | scraping/auth/authenticator.py:105-112 | the lookup loop returns `FirstMatch`, probes exactly `Probed`, and performs no action |
| `Authenticator.Authenticator.IsLoggedIn` | scraping/auth/authenticator.py:193-222 | `_is_logged_in` returns `Detect` on the current view and only probes |
| `Authenticator.Authenticator.SaveSession` | scraping/auth/authenticator.py:224-232 | the cookies file becomes the page's cookies; a write whose `open` fails leaves it as it was, one whose `json.dump` fails leaves it truncated and unloadable; the error is swallowed and the metadata is never touched |
| `Authenticator.Authenticator.LoadSession` | scraping/auth/authenticator.py:234-243 | the cookies are added to the page exactly when the cookies file loads, whatever the metadata says |
| `Authenticator.Authenticator.Login` | scraping/auth/authenticator.py:79-191 | the result, final history, probes and cookies file are those of `RunLogin` |
| `Authenticator.Authenticator.FillAndSubmit` | scraping/auth/authenticator.py:94-187 | the part of `login` after the first check follows `EnterCredentials` |
| `Authenticator.Authenticator.FillPasswordAndSubmit` | scraping/auth/authenticator.py:121-187 | the part of `login` after the email is typed follows `EnterPassword` |
| `Authenticator.Authenticator.SubmitLogin` | scraping/auth/authenticator.py:148-187 | the part of `login` after both fields are filled follows `Submit`, and it saves exactly on a passed check |
| `Authenticator.Authenticator.NavigateToUserSearch` | scraping/auth/authenticator.py:245-273 | the result, history and probes are those of `ClickFirst` over the search-tab candidates |
| `Authenticator.Authenticator.ClickUserProfile` | scraping/auth/authenticator.py:336-364 | the result, history and probes are those of `ClickFirst` over `ProfileSelectors(nickname)` |
| `Authenticator.Authenticator.ClickFirstOf` | scraping/auth/authenticator.py:257-269 | the loop shared by the navigation steps computes `ClickFirst` |
| `Authenticator.Authenticator.SearchUserByNickname` | scraping/auth/authenticator.py:275-334 | the result, history and probes are those of `RunSearch` |
| `Browser.Page.WaitForSelector` | scraping/auth/authenticator.py:108 | a probe reports whether the selector resolves now and records the probe; the page history is unchanged |
| `Browser.Page.Perform` | scraping/auth/authenticator.py:118 | an action is appended to the history; the result is whether the new view raised |
| `SessionStore.FixedWindow` | scraping/auth/session_manager.py:33-38 | a session saved at time t with timeout T is valid exactly while now <= t + T |
| `SessionStore.SaveThenLoad` | scraping/auth/session_manager.py:25-77 | loading right after a save returns the saved cookies and user info (an empty map when none was given) |
| `SessionStore.LoadCases` | scraping/auth/session_manager.py:49-77 | `load_session` returns data exactly when the metadata is valid and the cookies file does not fail to load; a missing cookies file gives an empty list |
| `SessionStore.StatusAgreesWithValidity` | scraping/auth/session_manager.py:131-158 | the status is `expired_or_missing` exactly when the session is invalid; an active status carries `expires_at - now`, which is never negative |
| `SessionStore.SavedStatus` | scraping/auth/session_manager.py:131-158 | right after a save, the status is active with the saved timestamps and the whole timeout remaining |
| `SessionStore.TouchKeepsWindow` | scraping/auth/session_manager.py:100-115 | a touch that completes sets only `last_activity`, and one that fails before truncating changes nothing: validity at every instant is unchanged; one cut short inside `json.dump` leaves the metadata unloadable, invalid at every instant |
| `SessionStore.TruncatedMetadataEndsSession` | scraping/auth/session_manager.py:40-41 | a metadata file cut short by a failed `json.dump` makes `load_session` return nothing and the status `expired_or_missing`, whatever the cookies file holds |
| `SessionStore.SessionManager.SaveSession` | scraping/auth/session_manager.py:25-47 | the cookies file is written first, then the metadata with created = last activity = now and expiry = now + timeout; a failed write raises; a failed `open` leaves that file as it was, a failed `json.dump` leaves it unloadable; the metadata is written only after the cookies; a complete save loads back; a save whose metadata dump fails loads nothing and reports `expired_or_missing` at every instant |
| `SessionStore.SessionManager.LoadSession` | scraping/auth/session_manager.py:49-77 | returns `Load` of the two files and writes nothing |
| `SessionStore.SessionManager.IsSessionValid` | scraping/auth/session_manager.py:79-98 | returns `Valid`: the metadata loads, has an expiry, and now is not past it |
| `SessionStore.SessionManager.UpdateLastActivity` | scraping/auth/session_manager.py:100-115 | a loadable metadata file is rewritten with `last_activity = now`, any other file is left alone; unless the rewrite is cut short inside `json.dump`, validity never changes; if it is, the session is invalid at every instant |
| `SessionStore.SessionManager.ClearSession` | scraping/auth/session_manager.py:117-129 | both files are gone afterwards, so the session is invalid and the status is `expired_or_missing` at every instant |
| `SessionStore.SessionManager.GetSessionStatus` | scraping/auth/session_manager.py:131-166 | returns `SessionStatus` of the metadata and writes nothing |
| `LoggerConfig.ParseFileSize` | scraping/config/logger.py:82-92 | a size ending in KB, MB or GB parses to a whole multiple of that unit |
| `LoggerConfig.KilobytesScale` | scraping/config/logger.py:85-86 | "<n>KB" in any letter case is n * 1024 bytes |
| `LoggerConfig.MegabytesScale` | scraping/config/logger.py:87-88 | "<n>MB" in any letter case is n * 1024 * 1024 bytes |
| `LoggerConfig.GigabytesScale` | scraping/config/logger.py:89-90 | "<n>GB" in any letter case is n * 1024^3 bytes |
| `LoggerConfig.DefaultLimit` | scraping/config/settings.py:73 | the default size "10MB" is 10485760 bytes |
| `LoggerConfig.CaseInsensitive` | scraping/config/logger.py:84 | letter case never changes the result |
| `LoggerConfig.PlainBytes` | scraping/config/logger.py:91-92 | a number without a suffix is that many bytes |
| `LoggerConfig.BytesSuffixRejected` | scraping/config/logger.py:91-92 | a bare "B" suffix is not recognised: "100B" raises |
| `Text.ParseShowNat` | scraping/config/logger.py:92 | `int` applied to a number's decimal text returns that number |
| `Settings.SetPathFails` | scraping/config/settings.py:139-147 | a write raises exactly when some existing step of the path is not a dictionary |
| `Settings.SetPathOnEmpty` | scraping/config/settings.py:140-141 | writing into an empty dictionary always succeeds, because every missing section is created |
| `Settings.SetPathStores` | scraping/config/settings.py:147 | after a write, the value sits at its path |
| `Settings.SetPathFrame` | scraping/config/settings.py:139-147 | a write leaves every path that parts from it unchanged |
| `Settings.SetPathCreatesSections` | scraping/config/settings.py:140-141 | every section on the path exists and is a dictionary after the write |
| `Settings.SetPathCommutes` | scraping/config/settings.py:139-147 | two writes at paths that part give the same result in either order, failures included |
| `Settings.Converted` | scraping/config/settings.py:144-145 | only `BROWSER_HEADLESS` becomes a boolean; every other variable is stored as its text unchanged |
| `Settings.HeadlessSpellings` | scraping/config/settings.py:144-145 | `BROWSER_HEADLESS` is true exactly for the four letters t, r, u, e in any letter case, and false for every other text |
| `Settings.MappedPathsDisjoint` | scraping/config/settings.py:124-133 | no mapped path is a prefix of another |
| `Settings.StepsCommute` | scraping/config/settings.py:135-147 | two mappings with parting paths commute, whether or not their variables are set |
| `Settings.SwapKeepsResult` | scraping/config/settings.py:124-147 | exchanging two neighbouring mappings with parting paths leaves the override's result unchanged |
| `Settings.StepWrites` | scraping/config/settings.py:136-147 | an unset variable changes nothing; a set variable, even an empty one, is stored at its path |
| `Settings.UnsetChangesNothing` | scraping/config/settings.py:135-137 | mappings whose variables are all unset leave the configuration unchanged |
| `Settings.ApplyFrame` | scraping/config/settings.py:135-147 | for mappings whose paths part pairwise, an override that does not raise leaves every path that parts from all applied paths as it was |
| `Settings.ApplyStores` | scraping/config/settings.py:135-147 | for mappings whose paths part pairwise, after an override that does not raise, each set variable's converted value sits at its path, later writes included |
| `Settings.OverrideEffect` | scraping/config/settings.py:121-147 | for the eight mappings: after an override that does not raise, every set variable's converted value is at its mapped path, and every path that parts from all applied paths looks up as before |
| `Settings.OverrideWithEnvVars` | scraping/config/settings.py:121-147 | the loop computes `Apply` over the eight mappings: they are applied in order, and the first write that raises ends the override (what a completed override stores is `Settings.OverrideEffect`) |
| `Settings.WritePath` | scraping/config/settings.py:139-147 | the walk-and-store computes `SetPath`: the same dictionary, or the same failure |
| `Settings.UsernameOnly` | scraping/config/settings.py:124-147 | with only `SCRAPING_USERNAME` set, an empty configuration becomes `{auth: {username: value}}` |
| `Dates.DaysInMonth` | create_daily_calendar.py:51 | `monthrange`'s length is between 28 and 31, and it is 29 exactly for February of a leap year |
| `Dates.LeapDay` | create_filtered_daily_calendar.py:68-73 | 29 February exists exactly in leap years |
| `Dates.NextDay` | create_filtered_daily_calendar.py:16 | the next day is a calendar date, and it is later |
| `Dates.AddDaysMonotone` | create_filtered_daily_calendar.py:16 | adding more days gives a strictly later date |
| `Dates.ExcelDate` | create_filtered_daily_calendar.py:12-18 | a converted serial is a valid `date`, no earlier than 1899 |
| `Dates.ExcelDateSmallSerials` | create_filtered_daily_calendar.py:15-16 | serial 0 is 1899-12-30, serial 1 is 1899-12-31, and serial 2 is 1900-01-01 |
| `Dates.ExcelDateOrdered` | create_filtered_daily_calendar.py:12-18 | larger serials convert to strictly later dates |
| `Text.ReplaceDropsDuplicateSuffix` | create_filtered_daily_calendar.py:30 | dropping ".1" from a header with pandas' ".1" duplicate suffix gives the same text as from the bare header |
| `Sheets.RowsFrom` | create_filtered_daily_calendar.py:50 | `iloc[from:]` keeps the cells from that row on, none for a shorter column |
| `Sheets.Height` | create_calendar_sheet.py:29 | the frame's height is the length of its longest column |
| `Sheets.DuplicateHeaderSameSerial` | create_filtered_daily_calendar.py:30-33 | a header and its ".1" duplicate name the same serial and the same date |
| `Sheets.NumberHeaderSerial` | create_filtered_daily_calendar.py:30-33 | a plain number header, with or without ".1", names that serial |
| `Sheets.TextHeaderIgnored` | create_filtered_daily_calendar.py:31 | a text header such as "Total" names no month |
| `Sheets.MonthColumns` | create_filtered_daily_calendar.py:27-36 | the month columns are at most the columns, and every month date is valid |
| `Sheets.MonthColumnsMembers` | create_filtered_daily_calendar.py:27-36 | a column is a month column exactly when its header converts to that date |
| `Sheets.CollectMonthColumns` | create_filtered_daily_calendar.py:28-36 | the header loop computes `MonthColumns` |
| `Calendar.AllDatesMembers` | create_filtered_daily_calendar.py:96-101 | a date is in the union exactly when some trader has it |
| `Calendar.CollectDates` | create_filtered_daily_calendar.py:98-101 | the loop computes the union of the traders' dates |
| `Calendar.Earliest` | create_filtered_daily_calendar.py:104 | returns a member of the set that comes before every other member |
| `Calendar.SortDates` | create_filtered_daily_calendar.py:104 | `sorted(all_dates)` is strictly ascending and holds exactly the set's dates, each once |
| `Calendar.IncreasingHasNoDuplicates` | create_filtered_daily_calendar.py:104 | a sorted date list has no repeats |
| `Calendar.BuildColumns` | create_filtered_daily_calendar.py:133-143 | one column per trader in sheet order, each cell that trader's profit on the row's date or NaN; the sheet is `calendar_data` after `calendar_data[sheet_name] = daily_profits` for each trader in turn |
| `Calendar.AssignFacts` | create_filtered_daily_calendar.py:143 | a dictionary store keeps the keys distinct: afterwards the entries are the new one and the old ones under other keys, and an existing key keeps its place |
| `Calendar.AssignAllKeys` | create_filtered_daily_calendar.py:138-143 | the stores keep the keys distinct, and the first key (`Date`) keeps the first place |
| `Calendar.AssignAllDates` | create_filtered_daily_calendar.py:133-143 | a date entry survives the stores exactly when no trader column reuses its key |
| `Calendar.AssignAllColumns` | create_filtered_daily_calendar.py:138-143 | with distinct sheet names, every trader's column is present under its name |
| `Calendar.DateColumnSurvives` | create_filtered_daily_calendar.py:133-163 | the written sheet starts with the key `Date`; it holds the dates there exactly when no sheet is named "Date", and otherwise that trader's profits take the place and no date column is left; with distinct names every trader column is present |
| `Calendar.AssembleCalendar` | create_correct_daily_calendar.py:95-146 | returns early exactly when no trader has a date; otherwise every date of the union appears once, ascending, with each trader's profit or NaN, and the sheet written keeps its date column exactly when no trader is named "Date" |
| `DailyPairs.ScanPairsKeys` | create_filtered_daily_calendar.py:54-73 | after the scan, a date is recorded exactly when it was recorded before or some visited (day, profit) pair names it |
| `DailyPairs.ScanPairsFrame` | create_filtered_daily_calendar.py:54-73 | a date no pair names keeps its previous entry |
| `DailyPairs.ScanPairsLastWins` | create_filtered_daily_calendar.py:70 | the last pair naming a date supplies its profit |
| `DailyPairs.ScanPairsAddsMonthDates` | create_filtered_daily_calendar.py:68-73 | every date the scan adds is a valid date of the scanned month |
| `DailyPairs.InvalidDaySkipped` | create_filtered_daily_calendar.py:72-73 | a day that does not exist, such as 31 April, is skipped without raising |
| `DailyPairs.PairDataValid` | create_filtered_daily_calendar.py:43-73 | every date extracted over the month columns is a valid date |
| `DailyPairs.DailyTradingDataValid` | create_filtered_daily_calendar.py:20-78 | every date `extract_daily_trading_data` returns is a valid date |
| `DailyPairs.ExtractDailyTradingData` | create_filtered_daily_calendar.py:20-78 | the two loops compute `DailyTradingData` |
| `DailyPairs.ExtractTraders` | create_filtered_daily_calendar.py:98-100 | the sheet loop computes `TradersOf` |
| `FilteredCalendar.TraderCountPositive` | create_filtered_daily_calendar.py:117-122 | some trader has the date exactly when it is in the union |
| `FilteredCalendar.TraderCountBound` | create_filtered_daily_calendar.py:119-122 | the count never exceeds the number of sheets |
| `FilteredCalendar.CountTraders` | create_filtered_daily_calendar.py:119-122 | the inner loop computes `TraderCount` |
| `FilteredCalendar.KeptExcludedPartition` | create_filtered_daily_calendar.py:115-130 | the kept and the excluded dates together are as many as the input dates |
| `FilteredCalendar.KeptDatesMembers` | create_filtered_daily_calendar.py:117-126 | a date is kept exactly when it is an input date and at least two traders have it |
| `FilteredCalendar.ExcludedDatesMembers` | create_filtered_daily_calendar.py:117-126 | a date is excluded exactly when it is an input date and fewer than two traders have it |
| `FilteredCalendar.KeptDatesIncreasing` | create_filtered_daily_calendar.py:115-126 | filtering keeps the ascending order |
| `FilteredCalendar.ExcludedDatesIncreasing` | create_filtered_daily_calendar.py:115-126 | the excluded dates stay in ascending order |
| `FilteredCalendar.IncreasingCardinality` | create_filtered_daily_calendar.py:104 | a strictly ascending list has as many elements as its set |
| `FilteredCalendar.ExcludedCount` | create_filtered_daily_calendar.py:130 | the printed excluded count equals the number of union dates that fewer than two traders recorded |
| `FilteredCalendar.KeptDatesFacts` | create_filtered_daily_calendar.py:115-130 | over the sorted union, the kept list is ascending, holds exactly the dates at least two traders share, and has the excluded count |
| `FilteredCalendar.FilterDates` | create_filtered_daily_calendar.py:115-126 | the loop computes `KeptDates` |
| `FilteredCalendar.CreateFilteredDailyCalendar` | create_filtered_daily_calendar.py:80-163 | returns early exactly when no sheet has a date; otherwise the rows are exactly the dates at least two traders recorded, ascending, with each trader's profit or NaN, and the rows dropped are the union dates fewer than two recorded; the sheet written keeps its date column exactly when no sheet is named "Date" |
| `FilteredCalendar.KeepsSharedDays` | create_filtered_daily_calendar.py:124-126 | a day two traders recorded is kept; a day one trader recorded is not |
| `CorrectCalendar.CreateCorrectDailyCalendar` | create_correct_daily_calendar.py:81-146 | returns early exactly when no sheet has a date; otherwise every extracted date appears once, ascending, with each trader's profit or NaN; the sheet written keeps its date column exactly when no sheet is named "Date" |
| `CorrectCalendar.FilteredRowsAreFullRows` | create_filtered_daily_calendar.py:115-126 | over the same workbook, the filtered rows are a subset of the unfiltered rows and no more numerous |
| `DailyPositional.Numerics` | create_daily_calendar.py:54-60 | the filtered values are no more than the cells |
| `DailyPositional.NumericsMembers` | create_daily_calendar.py:54-60 | every number of the column survives the filter, and nothing else does |
| `DailyPositional.DayCount` | create_daily_calendar.py:65 | the days assigned are the smaller of the month's length and the number of values |
| `DailyPositional.AssignDaysValue` | create_daily_calendar.py:65-69 | day i of the month gets the i-th value |
| `DailyPositional.AssignDaysFrame` | create_daily_calendar.py:65-69 | dates outside the assigned days keep their entries |
| `DailyPositional.PositionalDataValid` | create_daily_calendar.py:44-69 | every assigned date exists, because the day never passes the month's length |
| `DailyPositional.LastMonthColumnWins` | create_daily_calendar.py:44-69 | the last column of a month decides it: its i-th number is the profit of day i |
| `DailyPositional.CollectNumerics` | create_daily_calendar.py:57-60 | the loop computes `Numerics` |
| `DailyPositional.AssignMonth` | create_daily_calendar.py:50-69 | one month's loop computes `MonthData` |
| `DailyPositional.ExtractDailyDataFromSheet` | create_daily_calendar.py:21-72 | the month loop computes `DailyData` |
| `DailyPositional.ExtractTraders` | create_daily_calendar.py:92-95 | the sheet loop computes `TradersOf` |
| `DailyPositional.CreateDailyCalendarSheet` | create_daily_calendar.py:74-139 | returns early exactly when no sheet has a date; otherwise every date appears once, ascending, with each trader's profit or NaN; the sheet written keeps its date column exactly when no sheet is named "Date" |
| `CalendarSheet.RowDataKeys` | create_calendar_sheet.py:31-42 | a date is recorded exactly when some column with a date header has a number in row 2 |
| `CalendarSheet.RowDataLastWins` | create_calendar_sheet.py:39-40 | the last such column for a date supplies its profit |
| `CalendarSheet.RowDataValid` | create_calendar_sheet.py:36-40 | every recorded date is a valid date |
| `CalendarSheet.TraderData` | create_calendar_sheet.py:21-44 | extraction fails exactly when the sheet has no row 2 |
| `CalendarSheet.ExtractTraderData` | create_calendar_sheet.py:21-44 | the row read and the column loop compute `TraderData` |
| `CalendarSheet.TradersOf` | create_calendar_sheet.py:67-71 | fails exactly when some sheet fails; otherwise one trader per sheet, in order |
| `CalendarSheet.ExtractTraders` | create_calendar_sheet.py:67-71 | the sheet loop computes `TradersOf` and stops at the first failure |
| `CalendarSheet.ExtractionFailurePersists` | create_calendar_sheet.py:67-71 | once a prefix of the book fails, the whole book fails |
| `CalendarSheet.CreateCalendarSheet` | create_calendar_sheet.py:46-97 | never returns without a table; it crashes exactly when some sheet is too short, no date is found, or a sheet named "Date" has replaced the date column (so `.dt.strftime` raises); otherwise every date appears once, ascending, with each trader's profit or NaN, and the sheet starts with the date column |
| `CalendarSheet.ShortSheetCrashes` | create_calendar_sheet.py:29 | a sheet of two rows ends the script, whatever its header |

## Edge cases of the code

The model follows the code in each case.

- `login` saves through its own `_save_session`, which rewrites only `cookies.json`. A login never creates or refreshes `session_info.json`, so the manager's validity and status do not change (`Authenticator.Authenticator.SaveSession`).
- `_load_session` restores the cookies file whenever it loads, whatever `session_info.json` says; the expiry window is not consulted (`Authenticator.Authenticator.LoadSession`).
- `save_session` writes the cookies before the metadata. If opening the metadata file fails, the new cookies sit beside the old metadata, and `load_session` returns them whenever that old metadata is still valid. If `json.dump` fails after the metadata file was truncated, for instance on a `user_info` value it cannot serialise, the session is invalid until the next save (`SessionStore.SessionManager.SaveSession`, `SessionStore.TruncatedMetadataEndsSession`).
- `update_last_activity` swallows its errors, but a rewrite cut short inside `json.dump` truncates the metadata, and the session stops being valid (`SessionStore.SessionManager.UpdateLastActivity`).
- `load_session` returns nothing when the cookies file exists but does not parse, and `get_session_status` reports `error` when `created_at` or `last_activity` is missing.
- The filtered script's docstring and messages speak of days where three or more traders traded. The code keeps a day when two or more traders recorded it (`trading_count >= 2`), and the model keeps days with two or more.
- `create_calendar_sheet` has no guard for an empty union and reads `df.iloc[2]` outside any `try`. A workbook without dates, or a sheet with fewer than three rows, ends the script with an exception; the model returns `Crashed`. The other three scripts return early when there is no data.
- Every script keys its date column `Date` in the same dictionary as the trader columns. A sheet named "Date" therefore replaces the dates with that trader's profits: the three daily scripts write a sheet without dates, and `create_calendar_sheet` raises at `.dt.strftime` (`Calendar.DateColumnSurvives`).

## Left out

- Browser launch and shutdown (`start_browser`, `close_browser`, the async context manager) and `get_page`: they belong to the browser engine. The page oracle stands for the engine's behaviour.
- Selector timeouts and `wait_for_load_state`: a probe that times out is a selector that does not resolve, and a failing wait is the action before it raising. The differing per-call timeouts (2000, 3000, 5000 ms) are not modelled.
- An exception raised by `_is_logged_in`'s URL read, which makes the check return false, is not modelled separately.
- Logging, `print` and the scripts' statistics output (totals, averages, win rates, `trading_days`, the blank-cell counts): output only.
- JSON encoding, ISO-8601 timestamps and file paths: a file is `Missing`, `Unparsable` or `Present(value)`, and a write completes, fails in `open` (the file is unchanged) or fails inside `json.dump` (the file is left unparsable), and times are whole seconds passed in as `now`. Fractional seconds in `remaining_seconds` are not modelled.
- A failing `unlink` in `clear_session`: only the successful removal is modelled.
- `Settings.load_from_file`, the pydantic models and `load_dotenv`: configuration loading is modelled only as the override of a nested dictionary. A YAML top level that is not a mapping is not modelled.
- Settings.WritePath: the source walks the dictionary in place and stores through the `current` alias. It is modelled on values by rebuilding the sections, so sharing between sections is not captured.
- The workbook reading done by pandas: a sheet is a sequence of columns with header text and cells. Cells are missing, whole numbers or text. Floating-point profits and day numbers, booleans (which Python counts as `int`), numpy scalar types and `datetime` headers are not modelled.
- `str.isdigit`, `str.upper`, `str.lower`, `str.strip` and `int()` on non-ASCII text, as `_parse_file_size` and the settings override use them: only ASCII letters, ASCII digits and the six ASCII white-space characters are modelled. Full-width digits (which `int` accepts), Unicode case mappings and white space such as `\x1c` are not.
- SessionStore.SessionManager.SaveSession: `user_info` is a dictionary of strings. A value `json.dump` cannot serialise (a `datetime`) is not a separate input; its effect is the `DumpFailed` outcome of the metadata write.
- `strftime('%Y-%m-%d')` on the Date column and the `to_excel` output: the written sheet holds `Date` values in its date column.
- The scripts' existence check on `../data/TradeIland.xlsx` (print and return): the workbook is an input.
- scraping/cli.py, detailed_analysis.py, investigate_daily_data.py, verify_structure.py and explore_excel.py are not part of this model.
