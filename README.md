# GenMode core in Dafny

GenMode is a web application that rewrites text in the voice of one of seven
Gen-Z personas and keeps a history of a signed-in user's translations with
usage statistics. This project models its three core pieces and proves what
they promise.

- **Translation post-processing and prompt selection** (`translation.dfy`, module `Translation`).
  - `cleanResponse` removes every asterisk.
  - `getPersonaPrompt` picks the system prompt of a persona and falls back to the TikToker prompt.
  - `translateText` turns the outcome of the chat-completion call into a text or the fixed failure message.
  - JavaScript's `trim` is modelled with its full set of whitespace characters.
- **Usage statistics** (`streak.dfy`, module `Streak`; `history.dfy`, module `TranslationHistory`).
  - `getUserStats` counts all translations, the ones of the last seven days and the distinct personas.
  - It also computes the run of consecutive active days ending today or yesterday.
  - The streak loop is a method proved against a specification function.
  - Failures end in all-zero statistics, an empty list or `null`, as in `saveTranslation` and `getUserTranslations`.
- **Session and cache reconciliation** (`auth.dfy`, module `Auth`; `usercodec.dfy`, module `UserCodec`).
  - `AuthProvider` is a class holding the user it shows, a local store of three keys and its two flags.
  - Its operations are proved against state-transition functions.
  - The main invariant is that the user shown is the user cached under `genz-user-data`; every transition keeps it.
  - The cached text is `JSON.stringify` of the user. Its decoder is proved to read back what the encoder writes.
- **The day order as written** (`locale.dfy`, module `LocaleStreak`). The source orders days by their `toLocaleDateString()` labels; see Findings.

Every answer of a remote service is a parameter:
- the chat-completion response;
- `getSession`, the sign-in, sign-up and sign-out calls and auth events;
- the `translations` and `profiles` queries.

So is the clock: "now" as milliseconds of local time for the statistics, and as its ISO text for the session timestamp.

## Model

| member | source | states |
|---|---|---|
| Translation.CleanResponse | src/services/translation.ts:8-10 | the result has no `*`, is no longer than the input, and holds every other character as often as the input does |
| Translation.CleanResponseKeepsOrder | src/services/translation.ts:9 | the result is the input with characters deleted: the kept characters stay in their order |
| Translation.CleanResponseAppend | src/services/translation.ts:9 | cleaning a concatenation is the concatenation of the cleaned parts |
| Translation.CleanResponseIdentity | src/services/translation.ts:9 | a text without `*` is returned unchanged |
| Translation.CleanResponseIdempotent | src/services/translation.ts:9 | cleaning twice equals cleaning once |
| Translation.CleanResponseLength | src/services/translation.ts:9 | the length drops by exactly the number of asterisks |
| Translation.TrimStart | src/services/translation.ts:120 | the result is a suffix of the input, everything removed is whitespace, and it does not start with whitespace |
| Translation.TrimEnd | src/services/translation.ts:120 | the result is a prefix of the input, everything removed is whitespace, and it does not end with whitespace |
| Translation.Trim | src/services/translation.ts:120 | the result is a slice of the input with only whitespace outside it and no whitespace at either end |
| Translation.FromKey | src/services/translation.ts:13-78 | a key names a persona exactly when it is that persona's key, and then it names that one |
| Translation.PersonaOf | src/services/translation.ts:78 | a persona's own key selects that persona, and a key no persona has selects the TikToker fallback |
| Translation.PersonaPrompt | src/services/translation.ts:12-79 | each of the seven persona keys yields that persona's prompt, and every other key the TikToker prompt |
| Translation.PromptListsRules | src/services/translation.ts:13-78 | each persona's prompt opens with its header and contains every one of its rules |
| Translation.RulesShape | src/services/translation.ts:14-75 | every persona's prompt lists seven rules, the fifth being the no-asterisks rule |
| Translation.PromptForbidsAsterisks | src/services/translation.ts:19 | each persona's prompt contains "DO NOT use asterisks (*) in your response" |
| Translation.EveryPromptForbidsAsterisks | src/services/translation.ts:12-79 | whatever key is asked for, the prompt chosen contains the no-asterisks rule |
| Translation.BuildRequest | src/services/translation.ts:99-111 | the request names the fixed model and carries the persona's prompt as system message; the user message contains the text and the system message the no-asterisks rule |
| Translation.Content | src/services/translation.ts:114-121 | an `ok` response whose first choice holds a string yields exactly that string; a content is found only there; a network failure, a failed status, an unparseable body or no choices give none |
| Translation.TranslateText | src/services/translation.ts:114-127 | a usable answer gives its content trimmed then cleaned and no error; anything else gives the empty text and the fixed failure message; the text never holds `*` |
| Translation.TrimThenCleanCanLeaveLeadingSpace | src/services/translation.ts:120 | since trimming comes before cleaning, the answer `* hi` becomes ` hi`, which starts with a space |
| Streak.YesterdayIsPreviousDay | src/services/translationHistory.ts:166-167 | the instant 86400000 ms before now falls on the day before today |
| Streak.Insert | src/services/translationHistory.ts:161 | inserting into an ascending list keeps it ascending and adds exactly the one element |
| Streak.Sort | src/services/translationHistory.ts:161 | the result is ascending and a permutation of the input |
| Streak.Reverse | src/services/translationHistory.ts:162 | the result holds the input's elements in the opposite order |
| Streak.Dedup | src/services/translationHistory.ts:163 | the result has the same elements, no repeats, and is no longer; its values come in the order of their first occurrence in the input |
| Streak.UniqueDaysDescending | src/services/translationHistory.ts:159-163 | the distinct days are strictly decreasing, are exactly the days that occur, and are no more than the records |
| Streak.DedupOfNonIncreasing | src/services/translationHistory.ts:162-163 | removing repeats from a non-increasing list leaves a strictly decreasing one |
| Streak.CountStreak | src/services/translationHistory.ts:165-189 | given yesterday as the day before today, the loop's streak equals the specification: zero without activity today or yesterday, else one plus the one-day steps up to the first gap |
| Streak.LeadingRun | src/services/translationHistory.ts:176-188 | the run is zero without days and shorter than the list otherwise; every step before it is exactly one day, and the step right after it is not |
| Streak.StreakOf | src/services/translationHistory.ts:165-189 | the streak is at most the number of distinct days, and at least 1 exactly when the latest day is today or yesterday |
| Streak.StreakStopsAtFirstGap | src/services/translationHistory.ts:176-188 | with recent activity, one-day steps up to position i and a gap right after it, the streak is i + 1 whatever follows the gap |
| Streak.StreakWithoutGap | src/services/translationHistory.ts:176-188 | with recent activity and no gap at all, the streak is the number of distinct days |
| Streak.StrictlyDecreasingUnique | src/services/translationHistory.ts:159-163 | two strictly decreasing lists with the same elements are equal |
| Streak.SameDaysSameUniqueDays | src/services/translationHistory.ts:159-163 | the distinct-day list depends only on which days occur |
| Streak.UniqueDaysAre | src/services/translationHistory.ts:159-163 | the distinct-day list is the strictly decreasing list of the days that occur |
| Streak.LeadingRunIsRunEndingAt | src/services/translationHistory.ts:172-189 | one plus the leading run is the number of consecutive active days ending at the latest day |
| Streak.HeadIsLatest | src/services/translationHistory.ts:159-170 | the first distinct day is the latest day of all |
| Streak.StreakIsRunEndingTodayOrYesterday | src/services/translationHistory.ts:159-189 | with no day after today, the streak is the number of consecutive active days ending today when today is active, and else the number ending yesterday (zero when yesterday is not active either) |
| Streak.StreakZeroAfterToday | src/services/translationHistory.ts:166-172 | a record dated after today makes the streak zero |
| TranslationHistory.SaveTranslation | src/services/translationHistory.ts:13-69 | the stored row is returned exactly when there is a session and the insert succeeded; a missing table (42P01) gives `null` |
| TranslationHistory.GetUserTranslations | src/services/translationHistory.ts:71-105 | the fetched rows with a session and data; otherwise the empty list |
| TranslationHistory.WeekAgo | src/services/translationHistory.ts:149-150 | the cutoff falls seven days before today at the same time of day as now, so it is exactly seven 24-hour days before now |
| TranslationHistory.CountAfter | src/services/translationHistory.ts:149-153 | the count is at most the number of rows, equals it exactly when every row is after the cutoff, and is zero exactly when none is |
| TranslationHistory.Personas | src/services/translationHistory.ts:156 | a persona is in the set exactly when some row has it |
| TranslationHistory.DayKeys | src/services/translationHistory.ts:159-160 | one day key per row, in the rows' order |
| TranslationHistory.StatsOf | src/services/translationHistory.ts:145-196 | the total is the number of rows; weekly, distinct personas and streak never exceed it; there are no personas exactly when there are no rows, and no rows give all zeros |
| TranslationHistory.CalculateStats | src/services/translationHistory.ts:145-196 | the four numbers are those of the specification of the rows at now |
| TranslationHistory.GetUserStats | src/services/translationHistory.ts:107-212 | the statistics of the fetched rows, or all zeros without a session, on a query error or on `null` data |
| TranslationHistory.CountAfterAppend | src/services/translationHistory.ts:151-153 | a further row adds one to the weekly count exactly when it is strictly after the cutoff |
| TranslationHistory.AtCutoffNotThisWeek | src/services/translationHistory.ts:149-153 | a row made exactly seven days before now is not counted in the week |
| TranslationHistory.PersonasAppend | src/services/translationHistory.ts:156 | a further row adds its persona to the set of personas |
| TranslationHistory.PersonasBound | src/services/translationHistory.ts:156 | there are no more distinct personas than rows, and none exactly when there are no rows |
| TranslationHistory.SameDayKeepsStreak | src/services/translationHistory.ts:159-163 | a further row on a day already present leaves the streak unchanged |
| TranslationHistory.StreakIgnoresOrder | src/services/translationHistory.ts:159-163 | the streak does not depend on the order the rows are fetched in |
| TranslationHistory.ScenarioGapEndsStreak | src/services/translationHistory.ts:145-189 | two rows today, one yesterday and one three days ago give a total of 4 and a streak of 2 |
| TranslationHistory.ScenarioStaleActivity | src/services/translationHistory.ts:166-172 | a single row three days ago gives a streak of 0 |
| LocaleStreak.Decimal | src/services/translationHistory.ts:160 | the numeral of a date part is non-empty, made of decimal digits, reads back as the number, and has no leading zero |
| LocaleStreak.Label | src/services/translationHistory.ts:160 | the label opens with the month's numeral and a slash and holds only digits and slashes |
| LocaleStreak.LabelLessIsLexicographic | src/services/translationHistory.ts:161 | the label order is the lexicographic one: a proper prefix, or a smaller character at the first difference |
| LocaleStreak.SortByLabel | src/services/translationHistory.ts:161 | sorting the labels permutes the dates, and no label in the result sorts below an earlier one |
| LocaleStreak.DaysAsWritten | src/services/translationHistory.ts:159-163 | the source's distinct-day list has no repeats, holds exactly the days of the records, and is no longer than the records |
| LocaleStreak.StreakAsWritten | src/services/translationHistory.ts:159-189 | the streak the source computes is at most the number of records |
| LocaleStreak.OctoberDaysAsWritten | src/services/translationHistory.ts:159-163 | the source's day list for 9 and 10 October 2026 has the 9th first |
| LocaleStreak.OctoberLabelOrder | src/services/translationHistory.ts:160-161 | sorting the labels of 9 and 10 October 2026 puts the 10th first |
| LocaleStreak.ReversedPairStreak | src/services/translationHistory.ts:170-188 | yesterday listed before today gives a streak of 1 |
| LocaleStreak.ChronologicalPairStreak | src/services/translationHistory.ts:170-188 | today and yesterday in chronological order give a streak of 2 |
| LocaleStreak.LabelOrderBreaksStreak | src/services/translationHistory.ts:159-189 | on 10 October, with records on the 9th and the 10th, the source's order gives a streak of 1 and the chronological one 2 |
| UserCodec.EncodeUser | src/contexts/AuthContext.tsx:60 | the cached text opens with the `id` field and ends with a closing brace, so it is never empty and never taken for a missing entry |
| UserCodec.DecodeUser | src/contexts/AuthContext.tsx:82 | a text is read only when it opens with the `id` field and ends with a closing brace |
| UserCodec.ParseEscapedChar | src/contexts/AuthContext.tsx:60 | reading one character as `JSON.stringify` escapes it gives that character back and continues right after it |
| UserCodec.ParseBodyRoundTrip | src/contexts/AuthContext.tsx:60 | an escaped string body followed by a closing quote reads back as the string |
| UserCodec.ParseStringRoundTrip | src/contexts/AuthContext.tsx:60 | a quoted string reads back as itself, followed by what came after it |
| UserCodec.DecodeEncode | src/contexts/AuthContext.tsx:82 | parsing the cached text of a user gives that user back |
| UserCodec.EncodeInjective | src/contexts/AuthContext.tsx:60 | different users are cached as different texts |
| Auth.ReadCache | src/contexts/AuthContext.tsx:80-83 | an absent or empty entry counts as no cache; an entry is unreadable only when it does not decode, and a cached user is the one it decodes to, so a non-empty decodable entry is always taken as its user |
| Auth.Refreshed | src/contexts/AuthContext.tsx:43-49 | the session timestamp is set to now; the session text is written only when a session is given, else left as it was; every other key is untouched |
| Auth.Cleared | src/contexts/AuthContext.tsx:51-55 | the three keys are gone and every other key is untouched |
| Auth.WithUser | src/contexts/AuthContext.tsx:57-65 | the user becomes the one given; no user clears the three keys; a user is written under the user key, the timestamp becomes now, the session text is written when a session is given and kept otherwise, and every other key is untouched |
| Auth.LocalPart | src/contexts/AuthContext.tsx:105 | the result is a prefix of the address without `@`, ending just before the first `@` if there is one |
| Auth.DisplayName | src/contexts/AuthContext.tsx:105 | the name shown is never empty |
| Auth.ProfileUser | src/contexts/AuthContext.tsx:102-106 | the user built from a profile has the service user's id and a non-empty name |
| Auth.Resolve | src/contexts/AuthContext.tsx:77-113 | the state is unchanged, or a user with the session's id is shown and the timestamp is now, or the user and the three keys are cleared; an unreadable cache always clears |
| Auth.MirroredCache | src/contexts/AuthContext.tsx:80-88 | what the invariant `Mirrors` means for the cache: it is readable and holds exactly the user shown, and nothing when no user is shown |
| Auth.WithUserMirrors | src/contexts/AuthContext.tsx:57-65 | setting or clearing the user always leaves the user shown equal to the user cached |
| Auth.HitMirrors | src/contexts/AuthContext.tsx:80-88 | taking the cached user keeps the invariant |
| Auth.RowMirrors | src/contexts/AuthContext.tsx:97-108 | taking the profile row's user keeps the invariant |
| Auth.ResolveMirrors | src/contexts/AuthContext.tsx:77-113 | resolving a session keeps the user shown equal to the user cached |
| Auth.CacheHitSkipsLookup | src/contexts/AuthContext.tsx:80-88 | when the cached user has the session's id it is taken whatever the profile lookup would say, the user key is not rewritten, and only the session keys change |
| Auth.ProfileErrorChangesNothing | src/contexts/AuthContext.tsx:97-100 | without a cache hit, a failed profile lookup leaves the user and the store unchanged |
| Auth.UnreadableCacheClears | src/contexts/AuthContext.tsx:109-112 | a cached entry that cannot be parsed clears the user and all three keys |
| Auth.ProfileRowStored | src/contexts/AuthContext.tsx:102-108 | without a cache hit, the new state is that of `setUserWithStorage` with the user built from the profile row: shown and cached, timestamp written, session text written when given, other keys untouched |
| Auth.NewUserShownByName | src/contexts/AuthContext.tsx:102-108 | a user not yet cached whose profile has a name is shown under that name with the service's id and address |
| Auth.LocalPartOfAddress | src/contexts/AuthContext.tsx:105 | the text before the first `@` of `local@domain` is `local` |
| Auth.NameFromProfile | src/contexts/AuthContext.tsx:105 | a non-empty profile name is the name shown |
| Auth.NameFromAddress | src/contexts/AuthContext.tsx:105 | without a profile name, the address's non-empty local part is the name shown |
| Auth.NameFromWholeAddress | src/contexts/AuthContext.tsx:105 | without a profile name, a non-empty address with no `@` is shown whole |
| Auth.NameDefault | src/contexts/AuthContext.tsx:105 | with neither a profile name nor a usable address the name is `User` |
| Auth.AuthProvider.constructor | src/contexts/AuthContext.tsx:35-41 | the user is pre-filled from a readable cache entry, loading is on, the provider is not initialised, and the invariant holds unless the entry is empty |
| Auth.AuthProvider.UpdateStoredSession | src/contexts/AuthContext.tsx:43-49 | the store becomes the refreshed store |
| Auth.AuthProvider.ClearStoredSession | src/contexts/AuthContext.tsx:51-55 | the store loses the three keys |
| Auth.AuthProvider.SetUserWithStorage | src/contexts/AuthContext.tsx:57-65 | the new user and store are those of setting the user, and the invariant holds afterwards |
| Auth.AuthProvider.SetUserFromSession | src/contexts/AuthContext.tsx:77-113 | the new user and store are those of resolving the session, and the invariant is kept |
| Auth.AuthProvider.InitializeAuth | src/contexts/AuthContext.tsx:197-218 | a session is resolved; an error or no session clears; it always ends not loading and initialised |
| Auth.AuthProvider.OnAuthStateChange | src/contexts/AuthContext.tsx:223-239 | `SIGNED_OUT` clears; an event with a session resolves it and ends not loading; any other event changes nothing |
| Auth.AuthProvider.SignOut | src/contexts/AuthContext.tsx:185-193 | a service error is passed on and changes nothing; otherwise the user and the three keys are cleared |
| Auth.AuthProvider.SignIn | src/contexts/AuthContext.tsx:115-133 | an error is passed on with the state unchanged; a signed-in user is resolved; it always ends not loading |
| Auth.AuthProvider.SignUp | src/contexts/AuthContext.tsx:135-183 | as sign-in, except that a missing user gives the error "User creation failed" |

## Left out

- The HTTP call to the chat-completion service, its headers and API key, and every call to the hosted database and authentication service are outcome parameters.
  - The request's JSON body is modelled only as its model, system and user messages.
- Console logging everywhere, the `useAuth` hook, rendering, the listener's unsubscription, and all pages and components.
- The prompt texts' emoji are written as `\U{...}` escapes of the characters the prompts name.
- Translation.PersonaPrompt: a key naming a property every JavaScript object inherits (such as `constructor`) is treated like any other unknown key. In the source, such a key finds that inherited value rather than the TikToker prompt.
- Translation.TranslateText: any answer whose first choice lacks a string content is one outcome, as the source's `throw` inside `try` makes it. The shapes of such answers are not told apart.
- Dates are milliseconds of local time, and a day is `t / 86400000`. Time zones, daylight-saving days and the parsing of `created_at` are not modelled.
  - "A week ago" is `now - 7 * 86400000`.
- Streak.UniqueDaysDescending: orders the days chronologically, where the source sorts their `toLocaleDateString()` labels as strings. `LocaleStreak` models that order and the Findings row shows where they differ.
- `getStoredSessionData` (src/contexts/AuthContext.tsx:67-75) is called nowhere and is not modelled.
- The session is kept as the text `JSON.stringify` makes of it (`Session.serialized`); its structure is not modelled.
- UserCodec.DecodeUser: reads only the text `JSON.stringify` writes for a user (keys in order, no spaces). Any other stored text counts as unreadable and clears the session.
  - `JSON.parse` would read some of those texts, for instance with spaces or other key orders.
  - Other JSON values would reach the profile lookup instead.
- Auth.AuthProvider.constructor: requires the cached user entry to be absent, empty or readable. An unreadable entry makes the source's first render throw, and that is not modelled.
- Each handler runs as one atomic step. Interleavings of the listener with `initializeAuth`, and awaits overlapping other handlers, are not modelled.
- Auth.AuthProvider.SignUp: the one-second wait and the manual profile insert (src/contexts/AuthContext.tsx:154-174) are not modelled. The profile lookup passed in is the one made after them.
- Failures of local storage itself (quota, storage disabled) are not modelled.
- A Supabase session always carries its user, so `session?.user` is modelled as "a session is present".

## Findings

| source | as written | input that shows it | evidently intended | confidence | as-written member | corrected member |
|---|---|---|---|---|---|---|
| src/services/translationHistory.ts:159-163 | the day keys are `toLocaleDateString()` labels, sorted as strings and reversed, so "10/10/2026" comes after "10/9/2026" in the reversed list | en-US locale, records on 9 and 10 October 2026, statistics taken on 10 October: streak 1 | days in chronological order, latest first, giving a streak of 2 | not executed; holds for the en-US label form, and any label form whose string order differs from the date order breaks likewise | LocaleStreak.LabelOrderBreaksStreak | Streak.StreakIsRunEndingTodayOrYesterday |
