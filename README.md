# Launch site components, modelled in Dafny

This project models the computations at the heart of a rocket-launch web
site. The rendering and the canvas animations are not modelled. The modelled
parts are:

- the launch countdown: the target thirty days ahead at noon, the
  day/hour/minute/second decomposition, the sticky expiry flag and the
  zero-padded cards with singular or plural labels;
- the launch time line: the `"<time> UTC"` guard, the formatted instant
  and, for past launches, the "time ago" phrase with its exact cut points;
- the launch schedule panel: the remaining-time line refreshed every minute,
  the mission status colour and label, and the conversion into a selected
  time zone;
- the updates feed: case-insensitive search, type and tag filters, the list
  of distinct tags, pages of five, tag toggling and the page buttons;
- the launches page: the split into upcoming and past launches, a stable sort
  by date, the status badge, the empty-list message, and the 50-step count-up
  of the mission stats;
- the mission page: counters that tick by one towards their targets, and the
  interval that is meant to stop when they are done;
- the bundle configuration's `manualChunks` classifier.

Modules, one per source file plus shared ones:
- `Common`: `Option`, the launch status and the subsequence relation that `filter` keeps.
- `Text`: decimal rendering, `split`, `includes`, ASCII case mapping.
- `Duration`: the floor-and-remainder decomposition.
- One module per source file: `Countdown`, `LaunchTime`, `LaunchSchedule`,
  `Updates`, `Launches`, `Mission`, `Chunks`.

Instants are integer milliseconds. Date parsing and `Intl.DateTimeFormat`
cannot be seen from here, so they are passed in as function parameters. Each
returns `None` where JavaScript gives an Invalid Date or throws. The current
time and the local zone offset are also parameters.

Two details of the code a reader may not expect:
- The countdown expires only when the distance is negative
  (src/components/LaunchCountdown.tsx:30). At a distance of exactly 0 it
  shows all zeros but is not expired.
- The decomposition keeps the distance only down to the whole second. The
  milliseconds below a second are dropped.

## Model

| member | source | states |
|---|---|---|
| Text.Decimal | src/components/LaunchCountdown.tsx:64 | `toString` of a non-negative integer: only digits, no leading zero, a single digit exactly when the number is below 10 |
| Text.DecimalRoundTrip | src/components/LaunchCountdown.tsx:64 | reading the rendered digits back gives the number |
| Text.LeadingZeroValue | src/components/LaunchCountdown.tsx:64 | a '0' put in front by `padStart` does not change the value |
| Text.Split | src/components/LaunchTime.tsx:17 | `split(' ')` gives at least one piece, and no piece contains the separator |
| Text.SplitJoin | src/components/LaunchTime.tsx:17 | joining the pieces with the separator restores the string |
| Text.JoinSplit | src/components/LaunchSchedule.tsx:37 | pieces free of the separator, joined by it, split back into the same pieces |
| Text.SplitNoSeparator | src/components/LaunchSchedule.tsx:24 | a string without the separator splits into itself alone |
| Text.SplitAtFirst | src/components/LaunchTime.tsx:17 | the first piece runs up to the first separator; the rest is the split of what follows |
| Text.ContainsIff | src/pages/Updates.tsx:63-64 | `includes` holds exactly when the substring occurs at some index |
| Text.ContainsMiddle | vite.config.ts:14-18 | a string includes whatever sits between its prefix and its suffix |
| Text.ToLower | src/pages/Updates.tsx:63-64 | `toLowerCase`: same length, no upper-case letter left, each upper-case letter moved to its lower-case partner and every other character kept |
| Text.Capitalize | src/components/LaunchSchedule.tsx:102 | `charAt(0).toUpperCase() + slice(1)`: same length, only the first character changes, and a lower-case first letter becomes upper case |
| Duration.Decompose | src/components/LaunchCountdown.tsx:41-44 | hours below 24, minutes and seconds below 60 |
| Duration.DecomposeRoundTrip | src/components/LaunchCountdown.tsx:41-44 | the tuple accounts for the whole distance except the sub-second remainder |
| Duration.DecomposeUnique | src/components/LaunchCountdown.tsx:41-44 | every in-range tuple is the decomposition of its own milliseconds plus any sub-second remainder |
| Duration.SameMinuteSameDecomposition | src/components/LaunchSchedule.tsx:34-36 | two distances in the same whole minute have the same days, hours and minutes |
| Duration.DecomposeExample | src/components/LaunchCountdown.tsx:41-44 | 90 061 000 ms is one day, one hour, one minute and one second |
| Countdown.LaunchTarget | src/components/LaunchCountdown.tsx:22-24 | the target falls at 12:00 local time, between 29.5 and 30.5 days after mount |
| Countdown.TimeLeftAt | src/components/LaunchCountdown.tsx:30-46 | all zeros for a negative distance; otherwise the in-range tuple that accounts for the distance down to the second |
| Countdown.ExpiredAfter | src/components/LaunchCountdown.tsx:30-32 | the flag after a run of calculations is set when it was set before, and whenever some calculation saw a negative distance |
| Countdown.ExpirySticky | src/components/LaunchCountdown.tsx:30-32 | after a run of calculations the flag is set exactly when it already was or some calculation saw a negative distance |
| Countdown.FormatNumber | src/components/LaunchCountdown.tsx:63-65 | at least two digits that read back as the number; below 10 exactly one leading '0' before the digit, from 10 upwards the plain rendering |
| Countdown.UnitLabel | src/components/LaunchCountdown.tsx:67-72 | the unit's singular label exactly when the value is 1, the label plus 'S' otherwise |
| Countdown.Cards | src/components/LaunchCountdown.tsx:98-110 | four cards, in days-hours-minutes-seconds order; each number reads back as its count, is '0' and the digit below 10 and the plain rendering from 10; each label is the singular exactly when the count is 1 and the singular plus 'S' otherwise |
| Countdown.Render | src/components/LaunchCountdown.tsx:74-125 | the skeleton exactly while loading; "LAUNCH COMPLETED" exactly when expired; the mission banner exactly when not expired |
| Countdown.LaunchCountdown.constructor | src/components/LaunchCountdown.tsx:11-18 | zero time left, not expired, loading |
| Countdown.LaunchCountdown.CalculateTimeLeft | src/components/LaunchCountdown.tsx:26-47 | returns the time left at `now`; sets the expiry flag and clears loading only on a negative distance |
| Countdown.LaunchCountdown.Mount | src/components/LaunchCountdown.tsx:20-51 | fixes the target, computes the first time left, ends loading, and is never expired at mount |
| Countdown.LaunchCountdown.Tick | src/components/LaunchCountdown.tsx:54-57 | recomputes against the fixed target; once expired the countdown stays expired |
| LaunchTime.TimeGuard | src/components/LaunchTime.tsx:17-20 | the accepted clock value is non-empty and free of spaces |
| LaunchTime.TimeGuardSound | src/components/LaunchTime.tsx:17-20 | an accepted value is followed by " UTC" and then by the end of the string or a space |
| LaunchTime.TimeGuardComplete | src/components/LaunchTime.tsx:17-20 | a non-empty, space-free value followed by " UTC" and then by the end or a space is accepted |
| LaunchTime.TimeGuardIff | src/components/LaunchTime.tsx:17-20 | the guard accepts exactly "<v> UTC", alone or followed by a space and anything, for a non-empty `v` free of spaces |
| LaunchTime.LaunchInstant | src/components/LaunchTime.tsx:17-22 | an instant exists only when the guard passes, and when the guard passes it is exactly the parse of the guarded clock value |
| LaunchTime.TimeAgo | src/components/LaunchTime.tsx:39-53 | "just now" exactly below 60 000 ms; minutes, hours or days exactly in their ranges, each count the floor of the difference in that unit |
| LaunchTime.Phrase | src/components/LaunchTime.tsx:46 | "<n> <unit>", then "s ago" exactly when n is not 1, and nothing else: the length is that of the count, the unit and " ago" plus the optional 's' |
| LaunchTime.AgoText | src/components/LaunchTime.tsx:41-53 | "just now", or the phrase of the bucket's count and unit |
| LaunchTime.MinuteBoundary | src/components/LaunchTime.tsx:42-46 | 59 s ago is "just now", 60 s ago is "1 minute ago" |
| LaunchTime.LastMinuteBucket | src/components/LaunchTime.tsx:44-46 | 3599 s ago is "59 minutes ago" |
| LaunchTime.FirstHourBucket | src/components/LaunchTime.tsx:47-49 | 3600 s ago is "1 hour ago" |
| LaunchTime.Display | src/components/LaunchTime.tsx:14-68 | nothing when the guard or the parse fails; the formatted instant for an upcoming launch; for a past one the formatted instant followed by " (<time ago>)"; a display exists exactly when the style's formatter succeeds |
| LaunchTime.UpdateTime | src/components/LaunchTime.tsx:14-71 | "Date TBD" whenever the guard, the parse or formatting fails, and the display itself whenever it exists |
| LaunchTime.Rendered | src/components/LaunchTime.tsx:77-90 | "Date TBD" whenever the date or the time is empty, the stored display otherwise |
| LaunchSchedule.RemainingText | src/components/LaunchSchedule.tsx:37 | "<D> days <H> hours <M> minutes": split on spaces the text reads back as the three counts, each followed by its unit word, and it starts with a digit |
| LaunchSchedule.RemainingTime | src/components/LaunchSchedule.tsx:31-40 | "Launch time has passed" exactly when the difference is not positive, otherwise the text of its days, hours and minutes; never empty |
| LaunchSchedule.RemainingTimeAccounts | src/components/LaunchSchedule.tsx:33-37 | for a positive difference the hours are below 24, the minutes below 60, and together with the days they account for the difference down to the whole minute |
| LaunchSchedule.RemainingTimeIgnoresSeconds | src/components/LaunchSchedule.tsx:34-37 | two positive differences in the same whole minute give the same line |
| LaunchSchedule.FirstToken | src/components/LaunchSchedule.tsx:24 | `time.split(' ')[0]`: a space-free prefix of the time that ends at its end or at its first space |
| LaunchSchedule.MountEffectAsWritten | src/components/LaunchSchedule.tsx:24-27 | as written: skipped exactly for an empty first token; throws exactly when the token is non-empty and gives an Invalid Date; otherwise stores the ISO string of the parsed instant |
| LaunchSchedule.MalformedTimeThrows | src/components/LaunchSchedule.tsx:24-27 | a time such as "TBD", which does not parse, throws out of the effect as written |
| LaunchSchedule.MountEffect | src/components/LaunchSchedule.tsx:24-27 | corrected: never throws, skips exactly when there is no parseable instant, and otherwise agrees with the effect as written |
| LaunchSchedule.MissionStatusOrDefault | src/components/LaunchSchedule.tsx:16 | 'scheduled' when no status is given |
| LaunchSchedule.StatusColor | src/components/LaunchSchedule.tsx:50-58 | the colour of each of the four statuses, and gray exactly for every other string |
| LaunchSchedule.StatusLine | src/components/LaunchSchedule.tsx:102 | "Mission Status: " followed by the capitalised status |
| LaunchSchedule.FormatDateInTimezone | src/components/LaunchSchedule.tsx:60-72 | the formatter's output, or "Invalid date" when it throws |
| LaunchSchedule.LaunchScheduleView.constructor | src/components/LaunchSchedule.tsx:16-20 | default status, local zone, empty strings, no timer |
| LaunchSchedule.LaunchScheduleView.Mount | src/components/LaunchSchedule.tsx:22-48 | with the corrected guard: on a parsed instant, stores its ISO string and the remaining-time line and arms the timer; otherwise leaves both strings unchanged |
| LaunchSchedule.LaunchScheduleView.Refresh | src/components/LaunchSchedule.tsx:29-44 | the minute timer recomputes the line against the stored instant |
| LaunchSchedule.LaunchScheduleView.SelectTimezone | src/components/LaunchSchedule.tsx:132 | the selected zone becomes the chosen one |
| LaunchSchedule.LaunchScheduleView.ShowsRemaining | src/components/LaunchSchedule.tsx:91 | the remaining-time box is shown exactly for an upcoming launch with a non-empty line |
| LaunchSchedule.LaunchScheduleView.ShowsRemainingWhenCurrent | src/components/LaunchSchedule.tsx:91 | once the line is current it is never empty, so the box shows exactly for an upcoming launch |
| LaunchSchedule.LaunchScheduleView.ConvertedTime | src/components/LaunchSchedule.tsx:144-151 | the converted time is absent exactly while no ISO string is stored, and is otherwise formatted in the selected zone |
| Updates.MatchesSearch | src/pages/Updates.tsx:62-64 | the lower-cased term occurs at some index of the lower-cased title or description |
| Updates.MatchesType | src/pages/Updates.tsx:66 | type 'all' lets every update through, any other type exactly the updates of that type |
| Updates.MatchesTags | src/pages/Updates.tsx:68-69 | no selected tag lets every update through; otherwise some selected tag must be among the update's tags |
| Updates.Filtered | src/pages/Updates.tsx:61-72 | the updates kept are exactly those that match search, type and tags, each as often as in the input, in their original order |
| Updates.EmptySearchMatches | src/pages/Updates.tsx:62-64 | the empty search term matches every update |
| Updates.InitialQueryKeepsAll | src/pages/Updates.tsx:52-55 | with the initial filters nothing is filtered out |
| Updates.SearchIgnoresCase | src/pages/Updates.tsx:63-64 | a term and its lower-case form match the same updates |
| Updates.TagOccurrences | src/pages/Updates.tsx:58 | `flatMap` holds exactly the tags of the updates |
| Updates.TagOccurrencesOne | src/pages/Updates.tsx:58 | the tags of a single update are its own tags, in order |
| Updates.TagOccurrencesConcat | src/pages/Updates.tsx:58 | the tags of a concatenation are the tags of the first part followed by those of the second, which with the single-update case determines `flatMap` |
| Updates.Distinct | src/pages/Updates.tsx:58 | `Array.from(new Set(...))` has no duplicates and the same elements |
| Updates.DistinctFirstOccurrenceOrder | src/pages/Updates.tsx:58 | the distinct elements come in the order of their first occurrences |
| Updates.AllTags | src/pages/Updates.tsx:58 | every tag of every update exactly once, in the order of their first occurrences across the updates |
| Updates.TotalPages | src/pages/Updates.tsx:75 | `ceil(n / 5)`: the fewest pages of five that hold n items |
| Updates.Slice | src/pages/Updates.tsx:76-79 | `slice(start, end)`: empty when start reaches end or the length, otherwise the items from start up to end clamped to the length |
| Updates.Page | src/pages/Updates.tsx:76-79 | at most five items; exactly five on every page before the last, the rest on the last; non-empty exactly for the pages 1 to TotalPages |
| Updates.PagesConcatenate | src/pages/Updates.tsx:75-79 | pages 1 to TotalPages, concatenated, give back the whole filtered list |
| Updates.PreviousPage | src/pages/Updates.tsx:248 | never below 1, one back from any page after the first, and 1 on the first page |
| Updates.NextPage | src/pages/Updates.tsx:261 | never past the last page, one on from any page before it, and the last page on or past it |
| Updates.PageButtons | src/pages/Updates.tsx:245-262 | inside 1..total both buttons stay inside, and each undoes the other away from the ends |
| Updates.Remove | src/pages/Updates.tsx:94 | the list without the tag: the other elements kept, no duplicate added |
| Updates.Toggle | src/pages/Updates.tsx:92-96 | flips whether the tag is selected, leaves every other tag as it was, and never creates a duplicate |
| Updates.ToggleTwice | src/pages/Updates.tsx:91-98 | toggling twice restores the selection, and restores the list itself when the tag was not selected |
| Updates.TypeColor | src/pages/Updates.tsx:81-89 | the colour of each of the four types, and gray exactly for every other string |
| Updates.UpdatesPage.constructor | src/pages/Updates.tsx:52-55 | empty search, type 'all', page 1, no tags |
| Updates.UpdatesPage.Visible | src/pages/Updates.tsx:61-79 | the current page of the filtered list: at most five updates, each of them a matching one |
| Updates.UpdatesPage.SetSearchTerm | src/pages/Updates.tsx:133 | sets the term and leaves the page unchanged |
| Updates.UpdatesPage.SetSelectedType | src/pages/Updates.tsx:165 | sets the type and leaves the page unchanged |
| Updates.UpdatesPage.ToggleTag | src/pages/Updates.tsx:91-98 | toggles the tag and returns to page 1 |
| Updates.UpdatesPage.GoToPreviousPage | src/pages/Updates.tsx:248 | the page moves back by one, never below 1 |
| Updates.UpdatesPage.GoToNextPage | src/pages/Updates.tsx:245-261 | shown only with more than one page; the page moves on by one, never past the last |
| Launches.Insert | src/pages/Launches.tsx:130 | insertion adds exactly the one launch |
| Launches.InsertSorted | src/pages/Launches.tsx:130 | inserting into a sorted list keeps it sorted |
| Launches.InsertKeepsDateOrder | src/pages/Launches.tsx:130 | inserting keeps the order of the launches of every date |
| Launches.SortByDate | src/pages/Launches.tsx:130-134 | sorted by date, ascending or descending, and a permutation of the input |
| Launches.SortIsStable | src/pages/Launches.tsx:130-134 | launches with the same date keep their relative order |
| Launches.ByStatus | src/pages/Launches.tsx:128-133 | keeps exactly the launches whose status is, or is not, 'upcoming', in their original order |
| Launches.UpcomingLaunches | src/pages/Launches.tsx:128-130 | the upcoming launches, each as often as in the input, sorted by date ascending |
| Launches.PastLaunches | src/pages/Launches.tsx:132-134 | every other launch, each as often as in the input, sorted by date descending |
| Launches.ByStatusCons | src/pages/Launches.tsx:128-133 | the filter of a list is its first launch when that passes, followed by the filter of the rest |
| Launches.ByStatusPartition | src/pages/Launches.tsx:128-133 | the two filters together hold every launch exactly once |
| Launches.LaunchPartition | src/pages/Launches.tsx:125-137 | every launch is in exactly one list, the upcoming one exactly when its status is 'upcoming'; upcoming is sorted ascending and past descending, and in both lists launches of the same date keep their order |
| Launches.StatusLabel | src/pages/Launches.tsx:253-254 | UPCOMING for upcoming, SUCCESSFUL for success, FAILED for anything else |
| Launches.StatusBadgeColor | src/pages/Launches.tsx:250-252 | green exactly for success, red exactly for failure, the brand blue otherwise |
| Launches.EmptyMessage | src/pages/Launches.tsx:324-333 | shown exactly when the active tab's list is empty, that is, when no launch (or every launch) is upcoming |
| Launches.CountUp | src/pages/Launches.tsx:111-117 | the integer nearest to target·k/50, halves rounded up |
| Launches.CountUpEnds | src/pages/Launches.tsx:111-119 | 0 at step 0 and exactly the target at step 50 |
| Launches.CountUpMonotone | src/pages/Launches.tsx:110-117 | the count never goes down from one step to a later one |
| Launches.CountUpBounded | src/pages/Launches.tsx:110-117 | up to step 50 the count never passes its target |
| Launches.StatsAt | src/pages/Launches.tsx:113-117 | each shown stat is its mission stat times k/50, rounded half up |
| Launches.StatsStart | src/pages/Launches.tsx:96-100 | the shown stats start at zero |
| Launches.StatsEnd | src/pages/Launches.tsx:89-93 | after step 50 the shown stats are exactly the mission stats |
| Launches.StatsClimb | src/pages/Launches.tsx:110-117 | each shown stat climbs without ever passing its mission stat |
| Launches.StatsAnimator.constructor | src/pages/Launches.tsx:96-108 | step 0, zero stats, interval running |
| Launches.StatsAnimator.Tick | src/pages/Launches.tsx:109-119 | one step further, that step's stats shown, cleared exactly at step 50 |
| Launches.StatsAnimator.RunToCompletion | src/pages/Launches.tsx:108-120 | the interval clears itself after exactly the remaining steps, with the mission stats on show |
| Mission.Bump | src/pages/Mission.tsx:30 | a value within its target moves to min(value + 1, target); the target and title are unchanged; the value changes unless it is on its target |
| Mission.AnimateStats | src/pages/Mission.tsx:26-33 | same length, every counter bumped in its place |
| Mission.AnimateStatsInvariant | src/pages/Mission.tsx:28-31 | a tick keeps every value within its target, and changes nothing once all are complete |
| Mission.TicksValue | src/pages/Mission.tsx:19-31 | after k ticks a counter that starts within its target is at min(value + k, target), with target and title unchanged |
| Mission.Ticks | src/pages/Mission.tsx:26-33 | k ticks keep the number of counters, and counters within their targets stay within them |
| Mission.InitialCompletesAt | src/pages/Mission.tsx:19-23 | from the mounted counters every value is on its target exactly from tick 227 on |
| Mission.StepAsWritten | src/pages/Mission.tsx:35-42 | as written, a firing ticks while the mount-time snapshot is incomplete and clears the interval once it is complete; a cleared interval stays as it is |
| Mission.Step | src/pages/Mission.tsx:35-42 | corrected: a firing ticks while the current counters are incomplete, and clears the interval once they are complete |
| Mission.RunAsWritten | src/pages/Mission.tsx:35-42 | as written no firing clears the interval, because the mounted snapshot is never complete |
| Mission.Run | src/pages/Mission.tsx:35-42 | corrected: the counters stay within their targets, and the interval is cleared only once all of them are complete |
| Mission.AsWrittenNeverClears | src/pages/Mission.tsx:35-44 | as written the interval never clears itself, not even after every counter reached its target at firing 227 |
| Mission.RunStopsWhenComplete | src/pages/Mission.tsx:35-42 | corrected, the counters climb for 227 firings and the 228th clears the interval |
| Mission.MissionCounters.constructor | src/pages/Mission.tsx:19-23 | the mounted counters, captured as the snapshot too |
| Mission.MissionCounters.FireAsWritten | src/pages/Mission.tsx:35-42 | one firing as written |
| Mission.MissionCounters.Fire | src/pages/Mission.tsx:35-42 | one firing with the corrected stop check |
| Chunks.ManualChunksAsWritten | vite.config.ts:13-23 | no chunk exactly outside node_modules; 'vendor-react' exactly when the id also contains 'react'; 'vendor-ui' exactly for 'lucide' without 'react'; 'vendor' otherwise |
| Chunks.LucideReactGoesToVendorReact | vite.config.ts:15-20 | every module of the lucide-react package lands in 'vendor-react' as written |
| Chunks.ManualChunks | vite.config.ts:13-23 | corrected: 'vendor-ui' exactly for node_modules ids containing 'lucide'; every other id as before |
| Chunks.LucideReactGoesToVendorUi | vite.config.ts:18-20 | corrected, the lucide-react package lands in 'vendor-ui' |
| Chunks.ChunkNames | vite.config.ts:13-23 | the result is always no chunk or one of the three vendor chunks |

## Left out

- Canvas renderers and scene animations (space backgrounds, Dragon and Falcon animations) are not modelled. They are immediate-mode drawing and random numbers, not logic over values.
- Static pages, routing, the hero video and navigation menus are not modelled. They carry no computation.
- `new Date(string)`, `Date.now()` and `Intl.DateTimeFormat` are not modelled. They enter as parameters: a parser returning an optional instant, formatters returning an optional string, and the current time.
- `toISOString` is not modelled. It enters as a parameter from instants to strings.
- `toLocaleDateString` and the `formatDate` helper of the launches page are not modelled. They are locale formatting.
- Countdown.LaunchTarget: the local zone is a fixed offset. A daylight-saving change within the next thirty days is not modelled.
- Launches.CountUp: the count is exact rational rounding. Floating-point error in `target * (step / steps)` is not modelled.
- Text.ToLower, Text.Capitalize: only ASCII letters change case. Unicode case mapping is not modelled.
- Text.Decimal: exponent notation for very large numbers is not modelled. The values rendered here are far below it.
- Timers are not modelled as scheduling. Each interval callback is a method, and k firings are a function of k. Unmount clean-up is not modelled.
- `navigator.share` and `window.open` on the updates page are not modelled. They are browser I/O.
- Launches.SortByDate: dates that fail to parse (NaN comparator results) are not modelled. Every launch's date is an integer instant.
- Launches.Launch: names, sites, payloads and other display-only fields are not modelled.
- Updates.UpdatesPage.SetSearchTerm, Updates.UpdatesPage.SetSelectedType: they leave the page number as it is, as the code does. A page past the new last page is then empty (Updates.Page).

## Findings

| source | as written | input that shows it | evidently intended | confidence | as-written member | corrected member |
|---|---|---|---|---|---|---|
| src/pages/Mission.tsx:35-44 | the stop check reads `stats` captured when the effect mounted, which stays all zeros | any run: the counters are all complete after 227 firings, yet the check still sees zeros and the interval fires forever | stop once the current counters are complete | high, not executed | Mission.AsWrittenNeverClears | Mission.RunStopsWhenComplete |
| vite.config.ts:15-20 | 'react' is tested before 'lucide' | the id `node_modules/lucide-react/dist/index.js` contains "react" and goes to 'vendor-react'; 'vendor-ui' is never produced for the icon package | icons in their own 'vendor-ui' chunk | medium, not executed | Chunks.LucideReactGoesToVendorReact | Chunks.LucideReactGoesToVendorUi |
| src/components/LaunchSchedule.tsx:24-27 | only an empty first token is guarded against | time "TBD": `new Date(date + "TTBDZ")` is an Invalid Date and `toISOString` throws out of the effect | skip the effect when the instant does not parse | medium, not executed | LaunchSchedule.MalformedTimeThrows | LaunchSchedule.MountEffect |
