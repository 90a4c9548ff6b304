# Tally core, modelled in Dafny

Tally tracks resources (servers, domains, subscriptions) and when each one
expires. A Go server keeps the resources, and a React client lists, renews
and restores them. This project models the deterministic core of both sides
as pure Dafny functions and proves properties about them. Instants,
strings, sequences and integers are the only data.

The core has these parts:

- **Smart date input** (`SmartDate`, `SmartDateShapes`, `SmartDateProps`).
  - The tolerant date parser tries seven regular-expression shapes in a
    fixed order.
  - It checks the range and the calendar validity of the captured fields.
  - If no shape gives a valid date, it falls back to the JavaScript
    engine.
  - The `YYYY-MM-DD` formatter writes the canonical form.
  - Each regular expression is modelled by a hand-written matcher. A lemma
    proves that the matcher accepts exactly the decomposition the
    expression describes.
- **Time arithmetic of the server** (`ResourceModel`).
  - Instants are nanoseconds since the epoch.
  - `Sub` saturates the way Go's does.
  - The remaining days are the ceiling of the remaining time divided by
    24 hours.
- **Resource handlers** (`ResourceHandlers`). The database is an abstract
  store: rows plus the next primary key. The handlers are:
  - renewal;
  - partial update;
  - the listing sorted by expiry;
  - backup export;
  - backup import in `overwrite` or `append` mode, with its imported count.
- **Dashboard** (`Dashboard`): the search and group filter, the colour band
  of the remaining days, and the expired label.
- **Renewal dialog** (`RenewModal`).
  - The preview of the new expiry.
  - The request body it sends. Lemmas prove that with one clock the server
    stores the previewed instant to within one second, and exactly when
    the current expiry is a whole second.
  - The days field and the submit button.
- **Translations** (`I18n`, `I18nProvider`, `LanguageSwitch`).
  - Both translation tables, as data.
  - Lookup with fallback to `zh` and then to the key.
  - `{param}` substitution, which replaces only the first occurrence.
  - The initial locale and its persistence.
  - The language toggle.
- **Account settings dialog** (`SettingsModal`): the username and password
  forms, their checks in order, what they send, and when their buttons are
  disabled.

`JsText` models the ECMAScript string primitives the code relies on:

- `trim`;
- `includes` and `indexOf`;
- `replace` with a string pattern, including the `$` patterns of
  GetSubstitution (ECMAScript section 22.1.3.19.1);
- `parseInt`, `String(n)` and `padStart`;
- the UTF-16 `length`.

`Calendar` has the proleptic Gregorian month lengths (ISO 8601:2004
section 3.2.1), which the `new Date(y, m - 1, d)` round trip amounts to.

Three behaviours of the code are worth knowing:

- **A match that fails validation does not end the loop.** The parser goes
  on to the later patterns (web/src/components/SmartDateInput.tsx:36-60),
  and `SmartDate.PatternPath` models exactly that. `ContinuingEqualsStopping`
  proves that the other reading gives the same answer for every input: a
  failed validation of the first matching pattern goes straight to the
  fallback. The reason is that any two patterns that match the same text
  capture the same fields (`MatchesAgree`).
- **`formatToYYYYMMDD` does not pad the year.** It writes `${year}`
  unpadded; only month and day are padded to two digits. For the accepted
  years 1970-2100 the year has four digits anyway (`YearWidth`).
- **The settings dialog's messages have no translations.** It uses keys
  that neither translation table defines, so `t` shows the key itself
  (`SettingsModal.MessagesUntranslated`).

## Model

| member | source | states |
|---|---|---|
| `SmartDate.DigitRunSpec` | web/src/components/SmartDateInput.tsx:20-32 | The `\d` run from `i` is all digits and stops at the end of the text or at a non-digit. |
| `SmartDate.SpaceRunSpec` | web/src/components/SmartDateInput.tsx:20-26 | The `\s` run from `i` is all whitespace and stops at the end of the text or at a non-space. |
| `SmartDate.ParseSmartDate` | web/src/components/SmartDateInput.tsx:13-69 | A blank or whitespace-only input gives null. Otherwise the result is the pattern path's date when there is one, and that date is always in 1970..2100. Otherwise it is exactly the engine's parse of the trimmed text. |
| `SmartDate.PatternPath` | web/src/components/SmartDateInput.tsx:36-60 | The loop yields null iff no pattern from `k` on both matches and validates. Otherwise it yields the first pattern's date that does, so a failed validation goes on to the next pattern. |
| `SmartDate.Validate` | web/src/components/SmartDateInput.tsx:53-56 | Accepts iff the year is in 1970..2100 and the date exists in the calendar. An accepted date is the captured triple. |
| `Calendar.ConstructedDate` | web/src/components/SmartDateInput.tsx:54 | `new Date(y, m - 1, d)`, for a month 1..12, a day 1..31 and a four-digit year as the parser passes it, always reads back as an existing date, rolling over when needed. |
| `Calendar.ConstructedDateRoundTrip` | web/src/components/SmartDateInput.tsx:54-55 | The read-back equals (y, m, d) iff that date exists. So 30 February, and 29 February of a common year, fail. |
| `Calendar.DaysInMonth` | web/src/components/SmartDateInput.tsx:54-55 | A month has 28 to 31 days. February has 29 exactly in leap years. |
| `SmartDateShapes.IsoDateTimeSpec` | web/src/components/SmartDateInput.tsx:21 | Pattern 1 matches iff the text is a `-`-separated date, then `T` or one whitespace character, then a one-or-two-digit `H:M:S` clock, then anything. |
| `SmartDateShapes.SpacedDateTimeSpec` | web/src/components/SmartDateInput.tsx:23-27 | Patterns 2-4 match iff the text is a date with the pattern's separators, then at least one whitespace character, then a clock, then anything. |
| `SmartDateShapes.DateOnlySpec` | web/src/components/SmartDateInput.tsx:29 | Pattern 5 matches iff the text is exactly year, `-` or `/`, month, `-` or `/`, day. |
| `SmartDateShapes.CjkDateSpec` | web/src/components/SmartDateInput.tsx:31 | Pattern 6 matches iff the text is year `年` month `月` day `日`, then anything. |
| `SmartDateShapes.UsDateSpec` | web/src/components/SmartDateInput.tsx:33 | Pattern 7 matches iff the text is exactly month `/` day `/` four-digit year. |
| `SmartDateProps.MatchesAgree` | web/src/components/SmartDateInput.tsx:19-50 | Two patterns that both match a text are among the first five. They capture the same text, which reads as the same (year, month, day). |
| `SmartDateProps.FirstMatch` | web/src/components/SmartDateInput.tsx:36-38 | The first pattern in table order that matches, or none iff no pattern matches. |
| `SmartDateProps.ContinuingEqualsStopping` | web/src/components/SmartDateInput.tsx:36-60 | Going on after a failed validation gives, for every input, the same result as letting the first matching pattern decide. |
| `SmartDateProps.ParseStopsAtFirstMatch` | web/src/components/SmartDateInput.tsx:13-69 | The whole parse: the first matching pattern's validated date, or else the engine's parse. |
| `SmartDateProps.PrefixPatternsIgnoreSuffix` | web/src/components/SmartDateInput.tsx:21-31 | Patterns 1-4 and 6 keep the same match whatever text is appended, for example ` GMT+08:00`. |
| `SmartDateProps.AnchoredPatternsRejectSuffix` | web/src/components/SmartDateInput.tsx:29-33 | Patterns 5 and 7 stop matching when text that does not start with a digit is appended. |
| `SmartDateProps.UsDigitsTail` | web/src/components/SmartDateInput.tsx:33 | A US date is at least eight characters long, and its tail from index 6 on is year digits. |
| `SmartDateProps.DateOnlyExcludesTimed` | web/src/components/SmartDateInput.tsx:21-29 | A text that pattern 5 matches is matched by none of the patterns with a time part. |
| `SmartDateProps.LateMatchDecides` | web/src/components/SmartDateInput.tsx:29-60 | When pattern 5, 6 or 7 matches, it is the first match, and its fields alone decide the pattern path. |
| `SmartDateProps.DateOnlyParse` | web/src/components/SmartDateInput.tsx:29-57 | For `YYYY[-/]M[-/]D` text spelling the date `f`, the parse is `f` when it is in range and exists, and otherwise the engine's parse. |
| `SmartDateProps.FirstParse` | web/src/components/SmartDateInput.tsx:36-57 | When pattern `k` is the first to match and its fields validate, the parse is those fields. |
| `SmartDateProps.FormatFields` | web/src/components/SmartDateInput.tsx:72-77 | The formatter writes the year as `String(year)`, then `-`, two digits of month, `-`, and two digits of day. The fields read back from fixed positions. |
| `SmartDateProps.YearWidth` | web/src/components/SmartDateInput.tsx:73 | Years 1000..9999 print as exactly four characters. |
| `SmartDateProps.FormatThenParse` | web/src/components/SmartDateInput.tsx:13-77 | Round trip: parsing the formatted text of any existing date in 1970..2100 gives that date back. |
| `SmartDateProps.ExampleSlashedDate` | web/src/components/SmartDateInput.tsx:28-29 | `2026/04/16` parses to 16 April 2026. |
| `SmartDateProps.ExampleDashedDate` | web/src/components/SmartDateInput.tsx:28-29 | `2026-04-16` parses to 16 April 2026. |
| `SmartDateProps.ExampleThirtiethOfFebruary` | web/src/components/SmartDateInput.tsx:53-56 | `2026-02-30` fails validation and is left to the engine. |
| `SmartDateProps.ExampleCommonYearLeapDay` | web/src/components/SmartDateInput.tsx:53-56 | `2023-02-29` fails validation and is left to the engine. |
| `SmartDateProps.ExampleLeapDay` | web/src/components/SmartDateInput.tsx:53-56 | `2024-02-29` is accepted. |
| `SmartDateProps.ExampleBeforeRange` | web/src/components/SmartDateInput.tsx:53 | `1969-12-31` is out of range and is left to the engine. |
| `SmartDateProps.ExampleUsDate` | web/src/components/SmartDateInput.tsx:41-45 | `04/16/2026` reads as month, day, year. |
| `SmartDateProps.ExampleCjkDate` | web/src/components/SmartDateInput.tsx:30-31 | `2026年4月16日` parses to 16 April 2026. |
| `SmartDateProps.ExampleSlashedDateTime` | web/src/components/SmartDateInput.tsx:22-23 | `2026/04/16 23:59:59` parses to 16 April 2026; the time is dropped. |
| `SmartDateProps.ExampleIsoDateTime` | web/src/components/SmartDateInput.tsx:20-21 | `2026-04-16T23:59:59` parses to 16 April 2026. |
| `SmartDateProps.ExampleEmpty` | web/src/components/SmartDateInput.tsx:14 | The empty text gives null. |
| `SmartDateProps.ExampleBlank` | web/src/components/SmartDateInput.tsx:14 | A text of blanks (space, tab, ideographic space) gives null. |
| `JsText.Trim` | web/src/components/SmartDateInput.tsx:14-16 | `trim` removes exactly the leading and trailing whitespace. The result is empty iff the text is all whitespace. |
| `JsText.TrimIdempotent` | web/src/components/SettingsModal.tsx:48-50 | Trimming twice is trimming once. |
| `JsText.ReplaceFirstSpec` | web/src/i18n/index.ts:237 | `replace` with a string pattern: an absent pattern leaves the text unchanged. Otherwise only the first occurrence is replaced. |
| `JsText.ParseIntOfDecimal` | web/src/components/RenewModal.tsx:133 | `parseInt(String(n))` is `n` for every integer. |
| `JsText.ParseIntOfNegated` | web/src/components/RenewModal.tsx:133 | `parseInt` of `-` followed by decimal digits is minus their value. |
| `JsText.NatToDecimalValue` | web/src/components/SmartDateInput.tsx:74-75 | `String(n)` of a natural number reads back as `n` digit by digit. |
| `JsText.PadStart` | web/src/components/SmartDateInput.tsx:74-75 | `padStart` keeps the text as a suffix, fills in front with the fill character, and reaches the width. |
| `JsText.IncludesMeansInfix` | web/src/components/Dashboard.tsx:47-48 | `includes` is true iff the pattern occurs at some index. |
| `ResourceModel.Unix` | server/models/resource.go:36-37 | `Unix()` gives the whole seconds, rounded toward the past. |
| `ResourceModel.FromUnix` | server/handlers/resource.go:99 | `time.Unix(sec, 0)` reads back as `sec` and is a whole second. |
| `ResourceModel.FromUnixOfUnix` | server/models/resource.go:36-37 | Seconds and back loses only the fraction of a second. It is the identity iff the instant is a whole second. |
| `ResourceModel.Sub` | server/models/resource.go:29 | `Sub` is the difference, saturated to the `int64` range of a duration. |
| `ResourceModel.AddDays` | server/handlers/resource.go:106 | `AddDate(0, 0, d)` moves by `d` days of 24 hours. |
| `ResourceModel.CeilDays` | server/models/resource.go:30 | The least number of whole days not shorter than the duration. |
| `ResourceModel.RemainingDays` | server/models/resource.go:28-30 | The remaining days bracket the remaining time: `(days - 1) * 24h < expiry - now <= days * 24h`. |
| `ResourceModel.ToResponse` | server/models/resource.go:27-40 | ID, name and group are copied. The two instants become their Unix seconds. The remaining days are computed against `now`. |
| `ResourceModel.ExpiredIffNoDaysLeft` | server/models/resource.go:30 | The remaining days are at most 0 iff the expiry is not after now. |
| `ResourceModel.WholeDaysExact` | server/models/resource.go:30 | An expiry exactly `k` days ahead gives `k`. |
| `ResourceModel.PartialDayRoundsUp` | server/models/resource.go:30 | Any positive part of a day beyond `k` whole days gives `k + 1`. |
| `ResourceModel.RemainingDaysMonotone` | server/models/resource.go:30 | A later expiry never gives fewer remaining days. |
| `ResourceHandlers.Lookup` | server/handlers/resource.go:92-95 | Finds the row with the key, or none iff no row has it. |
| `ResourceHandlers.LookupUnique` | server/handlers/resource.go:92-95 | With distinct keys, the row found is the only row with that key. |
| `ResourceHandlers.AppendKeepsWellFormed` | server/handlers/resource.go:263 | Creating a row under the next key, and advancing the counter, keeps the keys distinct and below the counter. |
| `ResourceHandlers.ReplaceKeepsWellFormed` | server/handlers/resource.go:109 | Saving a row under its own key keeps the keys distinct and below the counter. |
| `ResourceHandlers.RenewedExpiry` | server/handlers/resource.go:97-107 | An explicit `expire_at` is taken verbatim. Otherwise `days` days are added to now when the resource has expired, and to the current expiry otherwise. |
| `ResourceHandlers.RenewResource` | server/handlers/resource.go:76-115 | Returns 400 iff the body does not bind or has neither field. Otherwise returns 404 iff the key is unknown, and 500 iff the save fails; in all these cases the store is unchanged. On success, only that row's expiry changes and the reply is its response. Distinct keys stay distinct. |
| `ResourceHandlers.ExplicitExpiryWins` | server/handlers/resource.go:98-99 | With `expire_at` present, `days` has no influence. |
| `ResourceHandlers.RenewalNeverShortens` | server/handlers/resource.go:100-106 | Renewing by zero or more days ends no earlier than now and no earlier than the current expiry. |
| `ResourceHandlers.RenewalMonotoneInDays` | server/handlers/resource.go:106 | More days never give an earlier expiry. |
| `ResourceHandlers.RenewTouchesOnlyExpiry` | server/handlers/resource.go:91-114 | A successful renewal changes no other row, no key, no name, no group, no creation time and not the next key. |
| `ResourceHandlers.ApplyUpdate` | server/handlers/resource.go:133-142 | Each supplied field replaces the stored one. Absent fields, the ID and the creation time stay. |
| `ResourceHandlers.UpdateIdempotent` | server/handlers/resource.go:133-142 | An empty update changes nothing. The same update applied twice equals it applied once. |
| `ResourceHandlers.UpdateResource` | server/handlers/resource.go:118-150 | Returns 400, 404 or 500 exactly in the binding, unknown-key and failed-save cases, with the store unchanged. On success only the addressed row is updated. Distinct keys stay distinct. |
| `ResourceHandlers.Insert` | server/handlers/resource.go:46-48 | Inserting into a sorted list keeps it sorted and adds exactly the one element. |
| `ResourceHandlers.SortByExpiry` | server/handlers/resource.go:45-48 | The result is sorted ascending by expiry and is a permutation of the input. |
| `ResourceHandlers.Responses` | server/handlers/resource.go:40-43 | One response per stored row, in storage order. |
| `ResourceHandlers.GetResources` | server/handlers/resource.go:32-51 | A failed read answers 500 and nothing else. Otherwise every stored resource appears as its response, with the same multiplicities, earliest expiry first. |
| `ResourceHandlers.ToBackup` | server/handlers/resource.go:211-216 | A backup entry keeps name and group, and has the two instants in Unix seconds. |
| `ResourceHandlers.ExportBackup` | server/handlers/resource.go:197-220 | A failed read answers 500 and nothing else. Otherwise the export has version `1.0`, the export time in seconds, and one entry per stored resource in order. |
| `ResourceHandlers.ParseMode` | server/handlers/resource.go:236-240 | Only `overwrite` and `append` are modes. |
| `ResourceHandlers.Restored` | server/handlers/resource.go:252-261 | An entry becomes a row with the next key. The creation time comes from the entry iff it is positive, and is now otherwise. |
| `ResourceHandlers.RestoredRows` | server/handlers/resource.go:251-271 | The rows created for the first `n` entries, with consecutive keys. |
| `ResourceHandlers.BackupRoundTrip` | server/handlers/resource.go:210-261 | Restoring an entry with a positive creation time and exporting it again gives the entry back. |
| `ResourceHandlers.RestoreRoundTrip` | server/handlers/resource.go:210-261 | Exporting a resource whose instants are whole seconds and restoring it gives the resource back under its new key. |
| `ResourceHandlers.ExportRestoreRoundTrip` | server/handlers/resource.go:197-271 | Restoring a whole export gives rows that export to the same entries. |
| `ResourceHandlers.ImportBackup` | server/handlers/resource.go:229-278 | A bad mode is refused before the store changes. A failed clear leaves it unchanged. Otherwise overwrite leaves exactly the restored entries and append leaves the existing rows followed by them. `imported` is the number of entries, or the index of the first failed creation, whose rows stay. New rows take fresh keys, so distinct keys stay distinct. |
| `Dashboard.FilterResources` | web/src/components/Dashboard.tsx:43-52 | The result is an order-preserving subsequence. It keeps every occurrence of each resource that matches the search and the group, and nothing else. |
| `Dashboard.EmptyFilterShowsAll` | web/src/components/Dashboard.tsx:46-49 | An empty query and no selected group give the whole list. |
| `Dashboard.FilterIdempotent` | web/src/components/Dashboard.tsx:43-52 | Filtering the filtered list again changes nothing. |
| `Dashboard.SearchHitIsInfix` | web/src/components/Dashboard.tsx:45-48 | A non-empty query hits iff its lower-cased form occurs in the lower-cased name or group. |
| `Dashboard.RemainingDaysStyle` | web/src/components/Dashboard.tsx:81-86 | Red iff days <= 0, orange iff 1..7, yellow iff 8..30, green iff > 30. |
| `Dashboard.ExpiryLabel` | web/src/components/Dashboard.tsx:192-194 | The label is `已过期` iff days <= 0. Otherwise it is the canonical decimal of the days (digits only, no leading zero, value equal to the days) followed by ` 天`. |
| `Dashboard.ExpiredLabelIffPast` | web/src/components/Dashboard.tsx:188-194 | A listed resource shows the expired label and the red band iff its expiry is not after the server's now. |
| `RenewModal.TimeClip` | web/src/components/RenewModal.tsx:29 | `new Date(t)` is valid, and holds `t`, iff t lies between -8.64e15 and 8.64e15 ms (ECMAScript TimeClip). |
| `RenewModal.DaysPreviewMs` | web/src/components/RenewModal.tsx:26-29 | The sum is the days added to the later of now and the current expiry: at least both, and equal to one of them plus the days. |
| `RenewModal.PredictedExpiry` | web/src/components/RenewModal.tsx:21-30 | Date mode with a date shows that date. Otherwise the preview is the days added to the later of now and the current expiry, and it is an Invalid Date iff that sum leaves the time-value range. |
| `RenewModal.PreviewNeverEarlier` | web/src/components/RenewModal.tsx:26-29 | With zero or more days, the preview (when it is a valid date) is neither before now nor before the current expiry. |
| `RenewModal.PreviewMonotoneInDays` | web/src/components/RenewModal.tsx:29 | More days never preview an earlier date. |
| `RenewModal.DateModeIgnoresDays` | web/src/components/RenewModal.tsx:22-24 | In date mode with a date, neither the days, the current expiry nor the clock matters. |
| `RenewModal.RenewPayload` | web/src/components/RenewModal.tsx:37-44 | Days mode sends only `days`. Date mode sends only `expire_at`, in whole seconds rounded down, or null for an invalid date. |
| `RenewModal.InvalidDateRefused` | web/src/components/RenewModal.tsx:41-43 | A date the engine rejects reaches the server as a body with neither field, which gets 400 with the store unchanged. |
| `RenewModal.PreviewMatchesServer` | web/src/components/RenewModal.tsx:26-29 | In days mode, with one clock, the server stores the previewed instant up to the sub-second part of the current expiry, which the client never sees. For a whole-second expiry the two are equal. |
| `RenewModal.DatePreviewMatchesServer` | web/src/components/RenewModal.tsx:41-43 | In date mode the server stores the previewed instant cut to the second. |
| `RenewModal.DaysInput` | web/src/components/RenewModal.tsx:133 | A non-numeric entry gives 0. Otherwise the entry gives what `parseInt` reads. |
| `RenewModal.DaysInputOfDecimal` | web/src/components/RenewModal.tsx:133 | A typed decimal number is read as itself. |
| `RenewModal.SubmitDisabled` | web/src/components/RenewModal.tsx:166 | Disabled iff loading, or in date mode without a date. |
| `RenewModal.EnabledRenewSubmits` | web/src/components/RenewModal.tsx:21-44 | An enabled button submits the previewed form: the entered date in date mode, the days from the later base in days mode. The body carries `days` exactly in days mode. The server does not answer 400 unless an unreadable date was entered. |
| `I18n.Texts` | web/src/i18n/index.ts:5-212 | Every entry of both tables is non-empty. |
| `I18n.LookupText` | web/src/i18n/index.ts:234 | The lookup uses the locale's text when it is non-empty, then the `zh` text, then the key. |
| `I18n.LookupNeverFallsBack` | web/src/i18n/index.ts:234 | A defined key is always found in the locale's own table. Any other key shows as itself. |
| `I18n.Translate` | web/src/i18n/index.ts:233-241 | Without params the result is the looked-up text unchanged. |
| `I18n.ParamsInEntryOrder` | web/src/i18n/index.ts:236-238 | Params apply one after another in entry order. |
| `I18n.AbsentPlaceholderKeepsText` | web/src/i18n/index.ts:237 | A param whose placeholder does not occur leaves the text unchanged. |
| `I18n.FirstPlaceholderOnly` | web/src/i18n/index.ts:237 | Only the first occurrence of `{k}` is filled; a later one stays. |
| `I18n.ResourceCountText` | web/src/i18n/index.ts:186 | The `en` text of `resourceCount` is `Contains {count} resources`. |
| `I18n.ResourceCountTranslation` | web/src/i18n/index.ts:233-241 | The `en` translator on `resourceCount` with any integer count `n` gives `Contains <String(n)> resources`. |
| `I18nProvider.StoredValue` | web/src/i18n/I18nProvider.tsx:12 | `getItem` returns the stored string, or null iff there is none. |
| `I18nProvider.LocaleName` | web/src/i18n/I18nProvider.tsx:13-14 | The locales are stored as `zh` and `en`. |
| `I18nProvider.InitialLocale` | web/src/i18n/I18nProvider.tsx:10-23 | A stored `zh` or `en` wins. Otherwise the locale is `zh` iff the lower-cased browser language starts with `zh`, and `en` otherwise. |
| `I18nProvider.Mount` | web/src/i18n/I18nProvider.tsx:26 | The provider starts in the initial locale. |
| `I18nProvider.SetLocale` | web/src/i18n/I18nProvider.tsx:28-31 | The locale becomes current and is stored under `tally-locale`. No other stored entry changes. |
| `I18nProvider.SetLocalePersists` | web/src/i18n/I18nProvider.tsx:28-38 | After `setLocale(l)`, a new mount starts in `l` whatever the browser language, and `t` translates into `l`. |
| `I18nProvider.BrowserLanguageDecides` | web/src/i18n/I18nProvider.tsx:12-22 | Without a usable stored value, only a browser language starting with `zh` selects Chinese. |
| `LanguageSwitch.Toggle` | web/src/components/LanguageSwitch.tsx:9 | A click always changes the locale. |
| `LanguageSwitch.Label` | web/src/components/LanguageSwitch.tsx:14 | The label names the target: `EN` iff the click goes to English, `中` iff it goes to Chinese. |
| `LanguageSwitch.Title` | web/src/components/LanguageSwitch.tsx:11 | The tooltip names the language a click switches to: `Switch to English` iff the click goes to `en`, and `切换到中文` iff it goes to `zh`. |
| `LanguageSwitch.Click` | web/src/components/LanguageSwitch.tsx:9 | A click switches the locale and stores the new one. |
| `LanguageSwitch.TwoClicksRestore` | web/src/components/LanguageSwitch.tsx:9 | Two clicks restore the locale, and the stored value then names it. |
| `SettingsModal.FailureText` | web/src/components/SettingsModal.tsx:53 | A failed request shows its own message, or `updateFailed`. |
| `SettingsModal.SubmitUsername` | web/src/components/SettingsModal.tsx:39-57 | A blank input does nothing. Otherwise the trimmed input is sent. On success it becomes the current name and the field is cleared; on failure the error is shown and the name stays. |
| `SettingsModal.SentUsernameIsTrimmed` | web/src/components/SettingsModal.tsx:41-50 | The name sent is non-empty, has no whitespace at either end, and is unchanged by trimming. |
| `SettingsModal.CheckPassword` | web/src/components/SettingsModal.tsx:64-72 | Too short iff the length is under 6. Otherwise it is a mismatch iff the confirmation differs, and accepted otherwise. |
| `SettingsModal.SubmitPassword` | web/src/components/SettingsModal.tsx:59-91 | The pair is sent iff both checks pass; a failed check sets only its error. On success the three fields are cleared. |
| `SettingsModal.ShortPasswordIgnoresConfirmation` | web/src/components/SettingsModal.tsx:64-67 | A short password is reported as short whatever the confirmation is. |
| `SettingsModal.UsernameSubmitDisabled` | web/src/components/SettingsModal.tsx:176 | Disabled iff loading or the input is blank. |
| `SettingsModal.PasswordSubmitDisabled` | web/src/components/SettingsModal.tsx:227 | Disabled iff loading or any of the three fields is empty. |
| `SettingsModal.EnabledPasswordSends` | web/src/components/SettingsModal.tsx:59-91 | An enabled password button never sends an empty old or new password. It sends the pair iff the new password has at least 6 UTF-16 units and equals the confirmation. |
| `SettingsModal.EnabledUsernameSends` | web/src/components/SettingsModal.tsx:41-48 | An enabled username button always sends the trimmed input. |
| `SettingsModal.SelectTab` | web/src/components/SettingsModal.tsx:110-128 | Switching tabs clears error and success, and nothing else. |
| `SettingsModal.MessagesHaveNoEntry` | web/src/components/SettingsModal.tsx:49-78 | The dialog's five message keys are in neither translation table. |
| `SettingsModal.MessagesUntranslated` | web/src/i18n/index.ts:234 | So `t` shows those keys verbatim in both locales. |

## Left out

- Persistence, the network and JSON binding are not modelled.
  - The database is a sequence of rows plus the next key. Whether `DB.Find` (listing, export) or a write succeeds is an input.
  - A body that does not bind is `None` for renew and update.
  - For import, the binding of `mode` and `data` is not modelled; an empty mode is refused anyway as an invalid mode.
- Handlers with no core logic are not modelled: `CreateResource`, `DeleteResource`, `GetGroups` (a SQL distinct), and the user and login handlers.
- Each handler takes one clock reading `now`. `RenewResource` calls `time.Now()` twice (lines 103-104), and `ToResponse` calls it once per resource; the model merges these readings.
- `RenewModal.DaysPreviewMs` and `RenewModal.PredictedExpiry` take one reading `nowMs` of `Date.now()`. The preview reads the clock twice (web/src/components/RenewModal.tsx:26-27): once to test whether the resource has expired and once as the base. The model merges the two, so the preview can differ from the real one by the time between the two reads.
- `ResourceHandlers.RenewResource` and `ResourceHandlers.UpdateResource` take the path id as a number. Only ids that Go's `strconv.Atoi` reads as a non-negative number are modelled, and they go to `Lookup` by key. The handlers pass the raw `c.Param("id")` string to `DB.First` (server/handlers/resource.go:77, 92, 121, 128). GORM treats any other string as a raw SQL `WHERE` condition, so for example `0 OR 1=1` selects the first row; that path is not modelled. A `DB.First` failing for a reason other than a missing row also answers 404, and the model's lookup never fails that way.
- `ResourceModel.RemainingDays` uses exact integer ceiling division. The source computes `math.Ceil(duration.Hours() / 24)` in float64, which can round differently within a few nanoseconds of a day boundary.
- `ResourceModel.AddDays` is 24-hour days in UTC. Go's `AddDate` works in the server's local time zone, so a daylight-saving change can shift the result by an hour.
- `ResourceModel.FromUnix` does not model Go's 64-bit integer width: instants are unbounded here. Go's `time.Time` keeps its seconds since year 1 in an `int64`, and `time.Unix(sec, 0)` adds 62135596800 to `sec`. So an `expire_at` near 2^63 (the request field is an `int64`, server/handlers/resource.go:21-22) wraps in Go into the far past, while the model gives a far-future instant.
- `ResourceModel.AddDays` also does not model the wrap of `AddDate`'s day arithmetic in 64-bit integers, which happens for `days` beyond about 10^14.
- `ResourceHandlers.RenewedExpiry` and `ResourceHandlers.ApplyUpdate` inherit both: for an `expire_at` near 2^63 or a `days` beyond about 10^14, Go stores a wrapped expiry and the model does not.
- `ResourceHandlers.RenewalNeverShortens` and `ResourceHandlers.RenewalMonotoneInDays` describe the program only for `days` whose result does not wrap in Go; past that, Go's renewal can move the expiry into the past.
- `ResourceHandlers.SortByExpiry` fixes one order among equal expiries. `sort.Slice` is unstable and promises only a sorted permutation, which is all the contract states.
- Primary keys are abstract. GORM's `DB.Create` takes the next key from an auto-increment counter (`Store.nextId`). `WellFormed` states that keys are distinct and below that counter; renewal, update and import keep it.
- These engine and browser functions are parameters and stay uninterpreted:
  - `new Date(text)`, both as the parser's last resort and as the date-mode time value of the renewal dialog;
  - `toLowerCase`;
  - `navigator.language`.
- Whitespace is the ECMAScript WhiteSpace and LineTerminator set, which covers `\s` and `trim`.
- Display formatting is not modelled: `toLocaleDateString`, `formatForDisplay` and the backup file name.
- JavaScript numbers are unbounded integers here. Precision beyond 2^53 and non-integer parameter values are not modelled. The range limit of time values is modelled (`RenewModal.TimeClip`).
- `Object.entries` is modelled as the given sequence of entries. The engine's rule that integer-like keys come first is not modelled.
- React state, effects and rendering are not modelled, and neither are these browser behaviours:
  - the `loading` flag while a request is in flight;
  - the delayed logout after a password change;
  - the native `required`, `minLength` and `min` checks of the inputs. The days field has `min={1}` (web/src/components/RenewModal.tsx:134), so the browser refuses to submit fewer than one day; `RenewModal.RenewPayload` sends any number of days.
- `parseSmartDate` on `null` or `undefined` is not modelled; the input is always a string.
- `web/src/types.ts` is the `Types.ResourceView` datatype and has no properties of its own.
- The two translation tables list the same keys in the same order, so the model stores each key once with both texts. Only the `zh` fallback for a key missing from `en` therefore cannot arise.
- `Calendar.ConstructedDate` and `Calendar.ConstructedDateRoundTrip` model `new Date(y, m - 1, d)` only for the years the parser passes it. Those are 1970..2100, because the range test comes first (web/src/components/SmartDateInput.tsx:53-54). The constructor reads years 0..99 as 1900 + y, and it gives an Invalid Date beyond about ±275760 years; neither edge is modelled.
- `I18n.LookupText` and `I18n.LookupNeverFallsBack` treat the tables as plain maps. `translations[locale][key]` (web/src/i18n/index.ts:234) also finds `Object.prototype` members, so keys such as `toString`, `constructor` or `__proto__` give a function or object rather than the key. The `TranslationKey` type and every call site pass only defined keys.
