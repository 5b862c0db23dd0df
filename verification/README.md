# Tamagotchi city: the decision and formatting rules

A model, in Dafny, of the pure logic of a pet-raising fitness web app. The user
exercises with the phone in hand; the app counts steps, classifies the motion
(idle, walking, jumping), turns a finished session into stamina, satiety and
mood rewards, and shows the pet, its stats, daily quests and map
check-ins. Everything around that logic (React state, timers, sensors, the
backend, the map library) is outside the model; the callbacks become pure
step functions over explicit state records.

Modules, following the program's files:

- `Calibration`, `Peaks`, `Classifier`, `Motion`, `Rewards`, `Weather` —
  the exercise screen (`src/pages/Exercise.tsx`): derived thresholds, peak
  counting, window trim, features and first-match classification, the
  gravity filter and step detector, reward arithmetic, and the rain check
  on the hourly forecast.
- `Status`, `ExerciseStats`, `PetStats` — the duration and time formatters
  and the stamina bar; strength within the current level.
- `Home`, `Api`, `StatBar`, `Pet` — the home page's chicken message and
  stage names, the API's stage map, stat-bar colours, and the bouncing pet.
- `Bonus`, `MapView`, `Travel`, `DailyQuests` — checkpoint bonus texts,
  range checks, marker colours, popup actions, the active route, landmark
  check-in, and the daily-quest claim.
- `Text`, `Wrappers` — decimal rendering and parsing, splitting and joining
  strings, and `Option`.

Representation: magnitudes, multipliers and thresholds are exact `real`s;
times are integer milliseconds; JavaScript's truncating `%` is written out
(`Text.JsRem`) and `Math.round` is `floor(x + 1/2)`. Values the program
gets from `Math.sqrt`, `Date` or the network (the magnitude of a vector,
the start hour, the distance to a checkpoint, the forecast) are inputs.

Where the code and its comments disagree, the model follows the code: the
walking cadence band is 0.74 to 1.94 Hz (the comments say about 2.16 to
3.36), stopping a session only announces the rewards, there is no pause or
resume rule, and the satiety reward exists. A successful daily-quest claim
deletes the id from the set of completed quests, and the claim button is
only shown for ids outside that set; the model keeps this as written
(`DailyQuests.ButtonClaimKeepsSet`).

## Model

| member | source | states |
|---|---|---|
| Calibration.Defaults | src/pages/Exercise.tsx:35-44 | The derived thresholds are step 3.65, peak 3.89, jump amplitude 63, vertical ratio 0.5, cadence band 0.74 to 1.94, walking std bound 6 |
| Calibration.JsRound | src/pages/Exercise.tsx:39-44 | `Math.round` gives the integer within one half of its argument, halves going up |
| Calibration.DeriveBandsOrdered | src/pages/Exercise.tsx:39-44 | For any profile with non-negative std the cadence band is non-empty and the step threshold is at most the peak threshold |
| Calibration.RoundCentsMonotone | src/pages/Exercise.tsx:39-44 | Rounding to cents preserves order |
| Peaks.Peaks | src/pages/Exercise.tsx:240-257 | The counted indices are interior strict local maxima above the threshold, in increasing order, each more than the gap after the previous; every peak left out lies within the gap of an earlier counted one; none below three points and at most n-2 |
| Peaks.PeakScan | src/pages/Exercise.tsx:246-255 | The scan from index i with the last counted time keeps the same three invariants for the rest of the sequence |
| Peaks.CountPeaks | src/pages/Exercise.tsx:240-257 | The loop's count equals the number of peaks the definition selects |
| Peaks.CountedPeaksSpaced | src/pages/Exercise.tsx:246-253 | With non-decreasing times, any two counted peaks, not only neighbours, are more than the gap apart |
| Classifier.Trim | src/pages/Exercise.tsx:262-265 | The kept samples are exactly the buffer's samples no older than 2000 ms |
| Classifier.TrimConcat | src/pages/Exercise.tsx:264 | The trim keeps order: filtering a concatenation is the concatenation of the filtered parts |
| Classifier.TrimAllRecent | src/pages/Exercise.tsx:264-265 | A buffer of recent samples only is kept whole |
| Classifier.TrimLater | src/pages/Exercise.tsx:264-265 | Trimming the saved buffer again at a later time equals trimming the original at that time |
| Classifier.Variance | src/pages/Exercise.tsx:274-275 | The variance with divisor max(1, n-1) is never negative |
| Classifier.ConstantHasZeroVariance | src/pages/Exercise.tsx:273-275 | A window of equal magnitudes has zero variance |
| Classifier.MaxOf | src/pages/Exercise.tsx:277 | The maximum is one of the magnitudes and bounds all of them |
| Classifier.WindowSeconds | src/pages/Exercise.tsx:282 | The window length is the first-to-last span in seconds, floored at 0.001 |
| Classifier.Rate | src/pages/Exercise.tsx:283 | The cadence times the window length is the peak count |
| Classifier.Extract | src/pages/Exercise.tsx:272-283 | The features: maximum magnitude, non-negative variance, both peak counts over the 250 ms gap, and the cadence over the floored window |
| Classifier.StdBoundViaVariance | src/pages/Exercise.tsx:274-317 | Comparing the standard deviation with a bound is the same as comparing the variance with the squared bound |
| Classifier.DecideIsBestCandidate | src/pages/Exercise.tsx:304-321 | The label is the applicable label of highest priority: jumping, then walking, then idle, then unknown |
| Classifier.JumpBeatsWalk | src/pages/Exercise.tsx:313-316 | When both the jump and walk conditions hold the label is jumping |
| Classifier.ClassifyWindow | src/pages/Exercise.tsx:260-322 | The buffer is saved trimmed; below four samples the label is idle; jumping needs a sample above the jump amplitude; walking needs the cadence inside the band |
| Classifier.IdleWindowIsQuiet | src/pages/Exercise.tsx:317-318 | A window of four or more samples labelled idle has every magnitude below 0.9 |
| Classifier.ConstantHasNoPeaks | src/pages/Exercise.tsx:251 | A constant series has no strict peak |
| Classifier.SteadyQuietWindowIsIdle | src/pages/Exercise.tsx:267-321 | A window of at least four recent samples of one magnitude below 0.9 is idle |
| Motion.LowPassAxis | src/pages/Exercise.tsx:344-346 | The gravity estimate moves 15 % of the way to the reading and stays between the old estimate and the reading |
| Motion.SettleGap | src/pages/Exercise.tsx:344-346 | After n equal readings the gap to the reading is 0.85^n times the initial gap |
| Motion.LinearIsScaledDeparture | src/pages/Exercise.tsx:344-351 | The linear acceleration is 0.85 times the reading's departure from the previous gravity estimate |
| Motion.StepDetect | src/pages/Exercise.tsx:361-367 | The count grows by one exactly when the jump from the previous magnitude exceeds the threshold and more than 400 ms have passed; the step time moves only then; the magnitude is always stored |
| Motion.NoStepWithoutPrevious | src/pages/Exercise.tsx:361-362 | With no stored magnitude the jump is zero and no step is counted |
| Motion.Run | src/pages/Exercise.tsx:361-367 | Over n readings the count grows by at most n |
| Motion.StepsSpaced | src/pages/Exercise.tsx:365-367 | Counted steps are more than 400 ms apart, the first more than 400 ms after the stored step time |
| Motion.HandleMotion | src/pages/Exercise.tsx:333-367 | Readings are ignored when not exercising or without acceleration; otherwise one sample at the current time is appended, the magnitude is stored, and at most one step is added |
| Motion.Start | src/pages/Exercise.tsx:144-154 | Starting resets samples, steps, magnitude and step time |
| Motion.StoppedIgnoresMotion | src/pages/Exercise.tsx:333-334 | After stopping, readings change nothing |
| Motion.FirstReadingNoStep | src/pages/Exercise.tsx:361-365 | The first reading after a start never counts a step |
| Rewards.Multiplier | src/pages/Exercise.tsx:215-227 | The multiplier is 1.15 for a start in [6, 10), 1.1 outdoors in rain, 1.265 for both, and 1 exactly when neither applies |
| Rewards.Base | src/pages/Exercise.tsx:211-213 | Stamina, satiety and mood are the floors of duration/10, steps/20 and duration/15 |
| Rewards.Scale | src/pages/Exercise.tsx:230-232 | The final value is the floor of base times multiplier and is never below the base |
| Rewards.Final | src/pages/Exercise.tsx:210-232 | Every final reward is at least its base reward |
| Rewards.NoBonusNoChange | src/pages/Exercise.tsx:216-232 | Without a bonus the final rewards are the base rewards |
| Rewards.FinalMonotone | src/pages/Exercise.tsx:210-232 | A longer session with at least as many steps never earns less |
| Rewards.BothBonusesExample | src/pages/Exercise.tsx:210-232 | Ten minutes and 1000 steps in the morning rain outdoors earn 75, 63 and 50 |
| Weather.NearestIndex | src/pages/Exercise.tsx:110-113 | The reduce returns an index no farther from now than any other, every earlier index strictly farther |
| Weather.NearestUnique | src/pages/Exercise.tsx:110-113 | Only one index is nearest with all earlier ones strictly farther |
| Weather.TieGoesToEarlier | src/pages/Exercise.tsx:112 | On a tie the later index is never chosen |
| Weather.PrecipitationAt | src/pages/Exercise.tsx:114 | A missing or out-of-range precipitation value reads as 0 |
| Weather.RainDetected | src/pages/Exercise.tsx:100-117 | With both arrays non-empty, rain exactly when the nearest hour (first on ties) has at least 0.5 mm/h; no rain without a forecast or with an empty array |
| Weather.DryForecast | src/pages/Exercise.tsx:114-116 | A forecast below 0.5 everywhere never reports rain |
| Weather.WetForecast | src/pages/Exercise.tsx:110-116 | A forecast at or above 0.5 at every hour reports rain |
| Status.WholeSeconds | src/pages/Status.tsx:12 | Negative input becomes 0; otherwise the fractional part is dropped |
| Status.ClockOf | src/pages/Status.tsx:13-15 | hours*3600 + minutes*60 + seconds is the input, minutes and seconds below 60 |
| Status.ClockOfUnique | src/pages/Status.tsx:13-15 | That decomposition is the only one |
| Status.RenderFields | src/pages/Status.tsx:16-18 | With hours the text has three fields, minutes and seconds two digits each; without, two fields, minutes unpadded; each field reads back as its value |
| Status.FormatDurationFields | src/pages/Status.tsx:11-19 | The hour field is present exactly when the duration is at least an hour |
| Status.FormatDurationRoundTrip | src/pages/Status.tsx:11-19 | Reading the formatted text back as h:MM:SS or m:SS gives the whole seconds |
| Status.FormatDurationNegative | src/pages/Status.tsx:12-18 | Negative input shows as "0:00" |
| Status.StaminaBar | src/pages/Status.tsx:91-103 | Width is stamina/900 of 100 %, primary colour exactly above 300, the keep-exercising caption exactly while stamina is positive |
| Status.TodayTotals | src/pages/Status.tsx:39-40 | Missing daily steps or seconds read as 0 |
| PetStats.LevelStrength | src/pages/Status.tsx:37 | Strength modulo 120 with JavaScript's remainder: in [0, 120) for non-negative strength |
| ExerciseStats.HoursMinutes | src/components/ExerciseStats.tsx:50-51 | Hours and minutes below 60 cover the seconds to within one minute |
| ExerciseStats.HoursMinutesUnique | src/components/ExerciseStats.tsx:50-51 | That decomposition is the only one |
| ExerciseStats.FormatTime | src/components/ExerciseStats.tsx:49-56 | The text ends in the minutes mark and has the hours mark exactly from one hour on |
| ExerciseStats.ShowInjective | src/components/ExerciseStats.tsx:52-55 | Different hours and minutes render differently |
| ExerciseStats.FormatTimeDropsSeconds | src/components/ExerciseStats.tsx:50-51 | Leftover seconds are dropped |
| ExerciseStats.FormatTimeSameIffSameMinutes | src/components/ExerciseStats.tsx:49-56 | Two times render the same exactly when they have the same whole minutes |
| ExerciseStats.PlaceholderRendersZero | src/components/ExerciseStats.tsx:25-33 | The placeholder stats render every time as zero minutes |
| Home.ChickenMessage | src/pages/Index.tsx:73-100 | Each message's exact condition: greeting without a pet, rest at stamina 0 or below, then mood above 80, above 60, level strength below 60, mood at most 40, else greeting |
| Home.MessageTextInjective | src/pages/Index.tsx:79-99 | The five non-greeting messages are distinct texts |
| Home.RestWinsOverMood | src/pages/Index.tsx:79-81 | With no stamina left the rest message wins whatever the mood |
| Home.NotYetMetPreemptsRusty | src/pages/Index.tsx:91-97 | Low level strength pre-empts the rusty message |
| Home.StageName | src/pages/Index.tsx:62-71 | Stages 0 to 4 get their names; any other stage is 小雞 |
| Home.StageNamesAgree | src/pages/Index.tsx:62-71 | The page's stage names are the API's stage names in Chinese |
| Home.StrengthBar | src/pages/Index.tsx:276-281 | The strength bar shows strength modulo 120 out of 120 |
| Api.StageName | src/lib/api.ts:352-361 | Stages 0 to 4 map to egg, small, medium, large, buff; anything else to small |
| Api.StageNameOfNumber | src/lib/api.ts:353-359 | Each stage name comes back from its number |
| Api.StageNumberOfName | src/lib/api.ts:353-359 | Each stage number from 0 to 4 comes back from its name |
| Api.StageNameCollisions | src/lib/api.ts:353-360 | Two stage numbers share a name only on "small", and then neither is 0, 2, 3 or 4 |
| StatBar.Percentage | src/components/StatBar.tsx:12 | The percentage times max is value times 100, with its bands as integer comparisons |
| StatBar.StatColour | src/components/StatBar.tsx:14-29 | Keyword labels get critical below max/4, warning below max/2, otherwise no colour; other labels get good above 70 %, medium above 40 %, else low |
| StatBar.HomeBarsAreKeywordBars | src/pages/Index.tsx:276-281 | The home page's bar labels all take the keyword branch |
| Pet.Size | src/components/Pet.tsx:14-22 | Every pet fits the 300-pixel box |
| Pet.SizeIncreasing | src/components/Pet.tsx:14-20 | The pet grows with every stage |
| Pet.AxisStep | src/components/Pet.tsx:27-41 | On a wall hit the velocity is negated and the position becomes 0 at the near wall or 300 - size at the far one; otherwise the pet moves by its velocity |
| Pet.AxisStepInBox | src/components/Pet.tsx:33-41 | After every step the position is inside [0, 300 - size] |
| Pet.BounceStep | src/components/Pet.tsx:26-41 | Both axes step independently and both end inside the box |
| Pet.Bounce | src/components/Pet.tsx:24-58 | After any positive number of steps the pet is inside the box |
| Pet.SpeedKept | src/components/Pet.tsx:29-39 | A step keeps the speed, only the direction may flip |
| Pet.PetColour | src/components/Pet.tsx:60-64 | Primary above mood 70, medium above 40, low otherwise |
| Pet.GrayscaleAndColour | src/components/Pet.tsx:125 | Grayscale pets are low-coloured, and mood 40 is low-coloured but not grayscale |
| Pet.EmojiInjective | src/components/Pet.tsx:66-74 | Each stage has its own emoji |
| Bonus.BonusText | src/components/MapView.tsx:419-424 | Empty exactly when neither bonus is a non-zero number; strength comes first |
| Bonus.BonusTextRoundTrip | src/pages/Travel.tsx:28-33 | The text reads back as the bonus with zero and missing fields dropped |
| Bonus.BonusTextSameIff | src/components/MapView.tsx:419-424 | Two bonuses give the same text exactly when they agree on their non-zero fields |
| Bonus.Normalize | src/pages/Travel.tsx:30-31 | Only non-zero fields are kept |
| Bonus.ParseIntToString | src/components/MapView.tsx:421-422 | A rendered number reads back as itself and has no comma |
| MapView.Radius | src/components/MapView.tsx:333 | A missing or zero required distance falls back to 100 m |
| MapView.DevModeAlwaysInRange | src/components/MapView.tsx:408 | In developer mode every quest is in range |
| MapView.UnknownPositionOutOfRange | src/components/MapView.tsx:409 | Without a position nothing is in range outside developer mode; the program always holds a position, so this guard never fires |
| MapView.DefaultRadiusRange | src/components/MapView.tsx:410-416 | Without a required distance a quest is in range exactly within 100 m |
| MapView.CloserStaysInRange | src/components/MapView.tsx:416 | Coming closer never leaves the range |
| MapView.IconColour | src/components/MapView.tsx:33-36 | Green exactly when completed, amber exactly when in progress, pink for an available sports venue, purple otherwise |
| MapView.StatusTakesPrecedence | src/components/MapView.tsx:34-36 | Once a quest is started the category no longer matters |
| MapView.CircleMatchesMarker | src/components/MapView.tsx:335-338 | Circle and marker agree except on an available sports venue, whose marker is pink and circle purple |
| MapView.PopupAction | src/components/MapView.tsx:294-324 | Accept for available, complete for in progress, a badge for completed; a button is enabled exactly when in range |
| MapView.ButtonEnabledIffInRange | src/components/MapView.tsx:294-308 | The popup button is enabled exactly when the quest is in range |
| MapView.FindActive | src/components/MapView.tsx:486 | The first quest with the active id that is in progress, or none exactly when there is no such quest |
| MapView.RouteTarget | src/components/MapView.tsx:485-496 | No route without an active id; a route only to an in-progress quest with that id |
| MapView.RouteGoesToFirstMatch | src/components/MapView.tsx:486-496 | The route goes to the first matching quest |
| MapView.PopupBonusText | src/components/MapView.tsx:419-424 | The popup's bonus line is empty exactly when the quest has no non-zero bonus |
| Travel.EveryLandmarkRewards | src/pages/Travel.tsx:8-17 | Every landmark has a positive bonus, so a non-empty bonus text |
| Travel.NamesDistinct | src/pages/Travel.tsx:8-17 | Landmark names are distinct |
| Travel.SelectionHighlightsOneRow | src/pages/Travel.tsx:107 | Selecting a landmark highlights its row and no other |
| Travel.Reward | src/pages/Travel.tsx:124-131 | Two lines exactly when both bonuses are non-zero; otherwise the bonus text |
| Travel.OneLineHasNoComma | src/pages/Travel.tsx:124-131 | The one-line display never needs a separator |
| Travel.CheckIn | src/pages/Travel.tsx:23-26 | No alert without a selection; otherwise the alert starts with the check-in message |
| Travel.CheckInAgreesWithBonusText | src/pages/Travel.tsx:25 | The alert carries exactly the bonus text's entries, separated by a space instead of ", ", with a stray space when one is missing |
| DailyQuests.Completed | src/components/DailyQuests.tsx:55-58 | The completed set is exactly the ids whose flag is set |
| DailyQuests.CompletedRecoversFlags | src/components/DailyQuests.tsx:55-58 | The flags can be read back from the set |
| DailyQuests.Load | src/components/DailyQuests.tsx:46-68 | A failed load keeps the set; a successful one replaces it with the completed set |
| DailyQuests.Claim | src/components/DailyQuests.tsx:75-95 | A claim in flight makes another a no-op; otherwise the claim is released, a success removes the id, and other ids never change |
| DailyQuests.ClaimRemovesExactlyOne | src/components/DailyQuests.tsx:81-87 | A successful claim of a listed id removes exactly that id |
| DailyQuests.ButtonClaimKeepsSet | src/components/DailyQuests.tsx:151-153 | The button is only shown for ids outside the set, so a claim through it leaves the set and the button as they were |
| DailyQuests.ClaimReleases | src/components/DailyQuests.tsx:92-94 | After a claim the button is enabled again, and a repeated claim with the same outcome changes nothing more |
| DailyQuests.Badges | src/components/DailyQuests.tsx:131-145 | A badge is shown for each strictly positive reward and only those, strength first and mood last |
| DailyQuests.TableBadges | src/components/DailyQuests.tsx:14-39 | The three quests show their badges in strength, stamina, mood order |
| Text.ParseNatToString | src/pages/Status.tsx:16-18 | A rendered natural number reads back as itself |
| Text.NatToStringInjective | src/components/ExerciseStats.tsx:53-55 | Distinct numbers render differently |
| Text.PadTwoNat | src/pages/Status.tsx:16 | `padStart(2, "0")` of a number below 100 is two digits reading back as the number |
| Text.JsRem | src/pages/Status.tsx:37 | JavaScript's remainder: in [0, b) for non-negative input, in (-b, 0] for negative |
| Text.SplitThree | src/pages/Status.tsx:17 | Splitting three colon-free fields joined by colons returns them |

## Left out

- Network I/O: every `fetch` in `src/lib/api.ts`, the forecast request and geolocation. The forecast arrays, the pet record, the quest flags and the claim outcome are inputs.
- Timers, intervals, event listeners, permission prompts, toasts, alerts as UI and React state: the callbacks are pure functions over explicit records. The one-second duration counter is an input (the session's whole seconds).
- `Math.sqrt`: `Motion.HandleMotion` takes the vector length as a function parameter `norm`, and the classifier decides the standard-deviation comparisons on the variance (`Classifier.StdBoundViaVariance`).
- Floating point: reals are exact, so 1.15 × 1.1 is exactly 1.265 and no rounding error of the JavaScript numbers is modelled. This changes results at the floors: the double nearest 1.15 lies just below it, so with the morning bonus alone a base of 100 gives 114 in the program and 115 in the model, and with both bonuses a base of 200 gives 252 in the program and 253 in the model (`Rewards.Scale`, `Rewards.Final`).
- `Date` and `getHours`: the start hour, the current time and the forecast timestamps are integers given as inputs.
- The haversine distance in `src/components/MapView.tsx`: the distance to a quest is an input.
- Pet.Bounce: the random change of direction (`Math.random`) every fiftieth step or so is not modelled; only the deterministic bounce.
- Classifier.ConstantHasZeroVariance: only states that equal magnitudes give zero variance, not the converse.
- Classifier.ClassifyWindow: states necessary conditions for walking and jumping; the full first-match order is stated on the features by `Classifier.DecideIsBestCandidate`.
- Status.FormatDuration: the input is a number; `Number(x) || 0` on non-numeric values (NaN) is not modelled.
- ExerciseStats.FormatTime: takes natural numbers of seconds; negative or fractional inputs are not modelled.
- StatBar.StatColour: requires a positive maximum; the source divides by whatever it is given, and every caller passes a positive constant.
- Home.StrengthBar: bounds the value only for non-negative strength; the negative case follows `Text.JsRem`.
- The debug logging behind the `DEBUG` flag, and the remaining pages and hooks (welcome, sidebar, routing, authentication, location bridge, user polling), which hold no rules beyond plumbing.
- The interleaving of overlapping asynchronous claims is not modelled: a claim is one atomic step with its outcome given.
