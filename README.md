# AsciiPal core, modelled in Dafny

AsciiPal is a desktop companion: a small ASCII-art character sits in an
always-on-top window. It reacts to keyboard and mouse activity, nudges the
user to take breaks, and decorates itself with weather, time of day, birds,
plants, bubbles, fireflies and companion creatures. This project models the
decision logic behind that behaviour:

- the sliding-window activity tracker and the rates it derives;
- the break manager's escalation and break cycle;
- the mood state machine with its cooldown;
- lifetime statistics, milestones and the break streak;
- configuration defaults, merging and validation;
- the aquarium scene and the particle effects;
- frame parsing for the character art;
- time-of-day and weather decorations;
- the application's status rendering, animation counter, demo input script, headless output and shutdown;
- the overlay's colour tables, tag spans, width ratchet, drag handling and window placement.

Each source module is one Dafny module of the same name:
`ActivityTracker`, `BreakManager`, `StateMachine`, `Achievements`, `Config`,
`Aquarium`, `Effects`, `Character`, `TimeAwareness`, `Weather`, `App` and
`Overlay`. Shared helpers live in `Wrappers` (Option/Result), `Text`
(split/join, padding, decimal rendering, substring search, truncation) and
`Arith` (monotonicity facts about multiplication and division).

Objects whose fields the program updates in place are classes. Each method's
`ensures` ties the new state to a pure specification function of the old
state, and lemmas state what the program promises about those functions.
This applies to `ActivityTracker`, `BreakManager`, `StateMachine`,
`AchievementManager`, the effect systems, `WeatherManager`, `AsciiPalApp`
and `Overlay`. Queues are `seq` fields, dictionaries `map` fields, and the
bird line's character buffer is an `array<char>`.

Conventions:
- Clock readings (`monotonic()`, `date.today()`, the current hour) are parameters.
- Python floats are `real`.
- ISO dates are integer day numbers.
- The random choices of the effect systems are arbitrary values within the ranges the program draws from.

## Model

| member | source | states |
|---|---|---|
| ActivityTracker.NonNeg | asciipal/activity_tracker.py:63 | `max(x, 0.0)`: never negative and never below `x`, and equal to `x` when it is already non-negative |
| ActivityTracker.DropBefore | asciipal/activity_tracker.py:101-108 | dropping stale events never grows the queue, and the first event kept is not older than the cutoff |
| ActivityTracker.DropBeforeSuffix | asciipal/activity_tracker.py:101-108 | pruning removes exactly a prefix of the queue, and every removed event is older than the cutoff |
| ActivityTracker.DropBeforeIdempotent | asciipal/activity_tracker.py:101-108 | pruning a second time at the same cutoff removes nothing more |
| ActivityTracker.AppendInWindow | asciipal/activity_tracker.py:41-43 | an event no older than the cutoff survives the prune that follows its append, and stays last |
| ActivityTracker.PrunedSortedInWindow | asciipal/activity_tracker.py:101-108 | a time-ordered queue stays ordered after pruning, and every event kept lies inside the window |
| ActivityTracker.AppendKeepsSorted | asciipal/activity_tracker.py:41 | appending an event no older than the last one keeps the queue ordered |
| ActivityTracker.RecordKeepsWindow | asciipal/activity_tracker.py:38-58 | record-then-prune leaves an ordered queue whose events all lie inside the window |
| ActivityTracker.EffectiveWindow | asciipal/activity_tracker.py:84 | the effective window is positive and at most the configured window; it is the window, the 1 ms floor, or the age of the oldest event |
| ActivityTracker.TypingWpm | asciipal/activity_tracker.py:81-86 | no keys gives 0 wpm; otherwise wpm × window × 5 = keys × 60, and the rate is bounded below by keys × 12 / window |
| ActivityTracker.ClickRate | asciipal/activity_tracker.py:88-92 | no clicks gives 0; otherwise rate × effective window = clicks, and the rate is at least clicks / window |
| ActivityTracker.MouseSpeed | asciipal/activity_tracker.py:94-99 | no samples gives 0; otherwise speed × effective window = the summed distance; never negative |
| ActivityTracker.SumSuffixAtMost | asciipal/activity_tracker.py:98 | the distance still in the window is between 0 and the distance before pruning |
| ActivityTracker.SumAppend | asciipal/activity_tracker.py:56-57 | recording a sample adds exactly its distance to the window sum |
| ActivityTracker.RateBound | asciipal/activity_tracker.py:84-85 | dividing by a window no larger than the configured one never lowers the rate |
| ActivityTracker.PopStale | asciipal/activity_tracker.py:103-108 | the `popleft` loop leaves exactly the pruned queue |
| ActivityTracker.ActivityTracker.constructor | asciipal/activity_tracker.py:27-36 | empty queues, zero totals, and both clocks set to the start time |
| ActivityTracker.ActivityTracker.Prune | asciipal/activity_tracker.py:101-108 | all three queues are pruned to the window; totals and clocks are unchanged |
| ActivityTracker.ActivityTracker.RecordKeypress | asciipal/activity_tracker.py:38-43 | last input time set, keypress total +1, the key appended and then every queue pruned; other totals unchanged |
| ActivityTracker.ActivityTracker.RecordClick | asciipal/activity_tracker.py:45-50 | the same for a click |
| ActivityTracker.ActivityTracker.RecordMouseMove | asciipal/activity_tracker.py:52-58 | the same for a mouse sample; the distance is added to the lifetime total |
| ActivityTracker.ActivityTracker.SnapshotAt | asciipal/activity_tracker.py:60-70 | the idle and active times are non-negative and not below the raw clock differences; all rates are non-negative; typing and click rates are zero exactly when their queues are empty |
| ActivityTracker.ActivityTracker.Snapshot | asciipal/activity_tracker.py:60-70 | prunes in place, then returns the snapshot of the pruned state |
| ActivityTracker.ActivityTracker.Totals | asciipal/activity_tracker.py:72-79 | the totals report the lifetime counters as they are, and a non-negative session length |
| ActivityTracker.TotalsBoundWindow | asciipal/activity_tracker.py:72-79 | the window never holds more keys, clicks or distance than the lifetime totals |
| BreakManager.IntervalSeconds | asciipal/break_manager.py:80-84 | the work interval depends on the pomodoro setting, and is at least one minute under a well-formed configuration |
| BreakManager.BreakDurationSeconds | asciipal/break_manager.py:86-90 | the same for the break length |
| BreakManager.Step | asciipal/break_manager.py:27-65 | each update keeps the state consistent and never loses a counted break; a due break leaves the state untouched |
| BreakManager.FinishBreak | asciipal/break_manager.py:31-37 | a break that has lasted its duration is counted, its seconds are added, and work restarts now |
| BreakManager.DuringBreak | asciipal/break_manager.py:38-39 | an unfinished break reports `on_break` with positive remaining time no longer than the break |
| BreakManager.OverdueIdleStartsBreak | asciipal/break_manager.py:45-47 | an overdue user who has gone idle starts the break automatically |
| BreakManager.IdleResetsTimer | asciipal/break_manager.py:49-51 | outside pomodoro mode, going idle before the break is due restarts the work timer |
| BreakManager.NotYetDue | asciipal/break_manager.py:53-55 | before the deadline nothing changes; the stage is `suggestion` exactly within the last five minutes |
| BreakManager.OverdueEscalates | asciipal/break_manager.py:57-65 | past the deadline the break is due and escalates with overtime: suggestion below 2 minutes, insistence below 5, tantrum after |
| BreakManager.StepKeepsAccounted | asciipal/break_manager.py:33-34 | an update keeps total break seconds equal to the breaks taken times the break duration |
| BreakManager.Run | asciipal/break_manager.py:27-65 | any sequence of updates keeps the state consistent and the break count monotone |
| BreakManager.RunKeepsAccounted | asciipal/break_manager.py:33-34 | the break-seconds accounting holds after any sequence of updates |
| BreakManager.BreakManager.constructor | asciipal/break_manager.py:19-25 | not on break, no break yet, zero counters, work started now |
| BreakManager.BreakManager.Update | asciipal/break_manager.py:27-65 | the object's new state and returned status are those of `Step` |
| BreakManager.BreakManager.StartBreak | asciipal/break_manager.py:67-69 | on break, started now; nothing else changes |
| BreakManager.BreakManager.ForceBreak | asciipal/break_manager.py:71-73 | starts a break only when not already on one |
| BreakManager.BreakManager.SkipBreak | asciipal/break_manager.py:75-78 | leaves the break and restarts the work timer now |
| StateMachine.DeriveTarget | asciipal/state_machine.py:47-64 | the sweating mood needs the sweating flag; long inactivity always means sleeping |
| StateMachine.TargetPriority | asciipal/state_machine.py:47-64 | for each mood, the target is that mood exactly when its rule holds and no earlier rule does (sleep, idle, rage, dizzy, sweating, fast typing, cheering, watching, otherwise idle) |
| StateMachine.Transition | asciipal/state_machine.py:29-41 | the state changes exactly when the target differs and the cooldown has passed or the clock went backwards; a change records the target and the time, and no change leaves the machine as it was |
| StateMachine.CooldownBlocks | asciipal/state_machine.py:37-38 | within the cooldown nothing changes |
| StateMachine.BackwardsClockAllows | asciipal/state_machine.py:35-36 | a clock earlier than the last transition counts as a full cooldown |
| StateMachine.FirstTargetImmediate | asciipal/state_machine.py:23 | because the last transition is backdated, the first differing target is taken at once |
| StateMachine.StateMachine.constructor | asciipal/state_machine.py:19-24 | idle, not sweating, the override cooldown or the configured one, last transition backdated by the cooldown |
| StateMachine.StateMachine.SetSweating | asciipal/state_machine.py:26-27 | only the sweating flag changes |
| StateMachine.StateMachine.Update | asciipal/state_machine.py:29-41 | the new mood and time are those of `Transition` applied to `DeriveTarget` |
| StateMachine.StateMachine.ForceState | asciipal/state_machine.py:43-45 | sets the mood and the transition time |
| Numerals.ParseInt | asciipal/config.py:109 | `int()` of a text: surrounding whitespace is ignored, then an optional sign and decimal digits with single underscores between digits; anything else has no value |
| Numerals.ParseFloat | asciipal/config.py:152 | `float()` of a text: the same stripping and sign, then a decimal mantissa with optional exponent, or `inf`/`infinity`/`nan` in any case |
| Numerals.IntRoundTrip | asciipal/config.py:108-109 | `int()` reads back every integer from its decimal rendering |
| Numerals.FloatOfIntText | asciipal/config.py:109-152 | any text `int()` accepts, `float()` accepts with the same value |
| Numerals.StripPadded | asciipal/config.py:109-152 | stripping removes exactly the blanks around a text that starts and ends with a non-blank |
| Numerals.ParsePadded | asciipal/config.py:109-152 | surrounding blanks do not change what `int()` and `float()` read |
| Numerals.HalfSample | asciipal/config.py:152 | `0.5` reads as one half |
| Numerals.BareFractionSample | asciipal/config.py:152 | `.5`, without its leading zero, reads as one half |
| Numerals.ExponentSample | asciipal/config.py:152 | `5e-1` reads as one half |
| Numerals.InfinitySample | asciipal/config.py:152 | `-Inf` reads as negative infinity |
| Numerals.MalformedSamples | asciipal/config.py:152 | a lone `.` and a doubled underscore have no value |
| Numerals.IntSamples | asciipal/config.py:109 | `30` and `-1_0` read as 30 and -10; `3.0` and the empty text have no value |
| Config.DeepMerged | asciipal/config.py:115-122 | the merged keys are the union of both dictionaries, and keys only in the defaults keep their value |
| Config.DeepMerge | asciipal/config.py:115-122 | the loop-and-recursion implementation computes `DeepMerged` |
| Config.MergeWithEmpty | asciipal/config.py:115-122 | merging an empty override returns the defaults |
| Config.MergeSelf | asciipal/config.py:115-122 | merging a dictionary into itself changes nothing |
| Config.MergeIdempotent | asciipal/config.py:115-122 | merging the same override twice is the same as merging it once |
| Config.Get | asciipal/config.py:126 | a lookup succeeds exactly when the key is present, and a missing key is reported by name |
| Config.Num | asciipal/config.py:126-152 | a comparison succeeds exactly on numbers, and anything else is a type error for that key |
| Config.ToFloat | asciipal/config.py:152 | `float()` of a value: a number is itself, a text is read as a float literal and is an error exactly when unreadable, anything else is a type error |
| Config.ToInt | asciipal/config.py:109 | `int()` of a value: a number is truncated, a text is read as an integer literal and is an error exactly when unreadable, anything else is a type error |
| Config.ToStr | asciipal/config.py:108 | `str()` of a value: text unchanged, and an integer rendered so that `int()` reads it back |
| Config.Truthy | asciipal/config.py:90 | `bool()`: `FromDict` and its partner `ConfigFromYaml` state that the booleans built and the empty-document test are this truthiness |
| Config.CheckPositive | asciipal/config.py:126-141 | a `> 0` rule; its partner `CheckPositiveMeaning` states when it passes |
| Config.CheckMember | asciipal/config.py:148-157 | a `not in` rule; its partner `CheckMemberMeaning` states when it passes and which error it raises |
| Config.CheckMemberMeaning | asciipal/config.py:148-157 | a membership rule passes exactly when the key holds an allowed string; a list or mapping is a type error, any other value a value error |
| Config.Validate | asciipal/config.py:125-159 | the rules in source order; its partner `ValidateExactly` states exactly which dictionaries pass |
| Config.CheckPositiveMeaning | asciipal/config.py:126-141 | a `> 0` rule passes exactly when the key holds a positive number |
| Config.ValidateExactly | asciipal/config.py:125-159 | validation succeeds exactly on dictionaries satisfying every rule (`Acceptable`); the opacity rule applies `float()`, so a readable text in [0.2, 1.0] passes |
| Config.AcceptableValidates | asciipal/config.py:125-159 | a dictionary satisfying every rule passes validation |
| Config.ValidatedAcceptable | asciipal/config.py:125-159 | a dictionary that passes validation satisfies every rule |
| Config.CooldownKeyApart | asciipal/config.py:126-157 | the cooldown key is none of the other keys the rules read |
| Config.RejectsSleepNotAfterIdle | asciipal/config.py:146-147 | a sleep timeout not above the idle timeout is rejected |
| Config.RejectsNegativeCooldown | asciipal/config.py:142-143 | a negative cooldown is rejected |
| Config.AcceptsNonNegativeCooldown | asciipal/config.py:142-143 | any non-negative cooldown is accepted with the other defaults |
| Config.AcceptableWithCooldown | asciipal/config.py:142-143 | replacing the cooldown of an acceptable configuration by a non-negative value keeps it acceptable |
| Config.RejectsOpacityOutOfRange | asciipal/config.py:152-153 | an opacity outside [0.2, 1.0] is rejected |
| Config.AcceptsOpacityInRange | asciipal/config.py:152-153 | any opacity in [0.2, 1.0] is accepted with the other defaults |
| Config.AcceptsOpacityText | asciipal/config.py:152-153 | an opacity given as text that `float()` reads into [0.2, 1.0] is accepted with the other defaults |
| Config.AcceptsHalfOpacityText | asciipal/config.py:152-153 | the opacity text `0.5` is accepted |
| Config.RejectsOpacityText | asciipal/config.py:152-153 | an opacity text that `float()` cannot read, or reads outside [0.2, 1.0], is rejected |
| Config.AcceptableWithOpacity | asciipal/config.py:152-153 | replacing the opacity of an acceptable configuration by any value that `float()` reads into range, number or text, keeps it acceptable |
| Config.RejectsUnknownChoices | asciipal/config.py:148-157 | a position, colour scheme or notification level outside its set is rejected |
| Config.DefaultBreakNumbers | asciipal/config.py:21-54 | default intervals are 25/5 minutes, for both plain and pomodoro modes |
| Config.DefaultIntervals | asciipal/config.py:21-54 | the default work interval is 25 minutes and the break 5 |
| Config.DefaultPomodoro | asciipal/config.py:21-54 | the default pomodoro work period is 25 minutes and its break 5 |
| Config.DefaultActivityNumbers | asciipal/config.py:21-54 | the default thresholds are 80 wpm, 5 clicks/s, speed 700 and 45 minutes |
| Config.DefaultInputNumbers | asciipal/config.py:21-54 | the default fast-typing rate is 80 wpm and the rage-click threshold 5 |
| Config.DefaultPraiseNumbers | asciipal/config.py:21-54 | the default dizzy speed is 700 and cheering starts after 45 minutes |
| Config.DefaultTimingNumbers | asciipal/config.py:21-54 | the default timings are cooldown 2.0 s, idle 10 s, sleep 120 s, scale 1.0 and opacity 0.95 |
| Config.DefaultTimeouts | asciipal/config.py:21-54 | the default cooldown is 2.0 s, the idle timeout 10 s and the sleep timeout 120 s |
| Config.DefaultLookNumbers | asciipal/config.py:21-54 | the default character scale is 1.0 and the opacity 0.95 |
| Config.DefaultPositive | asciipal/config.py:21-54 | every key with a `> 0` rule has a positive default |
| Config.DefaultIntegers | asciipal/config.py:21-54 | every key read with `int()` defaults to an integer |
| Config.DefaultNumbers | asciipal/config.py:21-54 | every key with a `> 0` rule has a positive default, and the integer keys default to integers |
| Config.DefaultChoices | asciipal/config.py:21-54 | the defaults for position, scheme, notifications, custom art, flags, location and poll interval |
| Config.DefaultLooks | asciipal/config.py:21-54 | the default position is `bottom-right`, the scheme and notifications `default` and `gentle`, with the default custom-art mapping |
| Config.DefaultSwitches | asciipal/config.py:21-54 | by default pomodoro mode is off, widget mode on, time awareness off and system resources on |
| Config.DefaultWeather | asciipal/config.py:21-54 | by default weather is off, with no location and a 30-minute poll |
| Config.DefaultAcceptable | asciipal/config.py:21-54 | the defaults satisfy every rule |
| Config.DefaultTimingsAllowed | asciipal/config.py:21-54 | the default cooldown, timeouts and opacity keep their rules |
| Config.DefaultChoicesAllowed | asciipal/config.py:21-54 | the default position, scheme and notification level are allowed ones, and the custom art is a mapping |
| Config.DefaultConfigValid | asciipal/config.py:21-54 | the defaults pass validation |
| Config.FromDict | asciipal/config.py:85-112 | a built configuration has passed validation and has in-range choices, cooldown, opacity and scale; it holds `str()` of the location, `max(5, int())` of the poll interval, the `float()` of the opacity and the truthiness of `weather_enabled` |
| Config.IntField | asciipal/config.py:88-109 | `int(data[key])`; its partner `FieldReads` states what it returns |
| Config.BoolField | asciipal/config.py:90-111 | `bool(data[key])`; its partner `FieldReads` states what it returns |
| Config.StrField | asciipal/config.py:100-108 | `str(data[key])`; its partner `FieldReads` states what it returns |
| Config.FieldReads | asciipal/config.py:88-111 | a missing key is a `KeyError` for that key; otherwise `int()` reads as `ToInt` (a number truncated), `bool()` gives the truthiness and `str()` gives `ToStr`, keeping text unchanged |
| Config.Max5 | asciipal/config.py:109 | `max(5, n)` is at least 5 and at least n, and equal to one of them |
| Config.OpacityOf | asciipal/config.py:103 | the opacity `float()` of a validated value lies in [0.2, 1.0] |
| Config.FromDictExactly | asciipal/config.py:85-112 | building succeeds exactly when validation passes, the boolean keys and the location are present, and `int()` reads the poll interval |
| Config.PollFromText | asciipal/config.py:109 | a poll interval given as the text `30` builds a 30-minute interval |
| Config.FromDictWellFormed | asciipal/config.py:85-112 | with integer-typed numbers, the built configuration is well formed (the positive and ordered fields) |
| Config.FromDictBreakNumbers | asciipal/config.py:88-92 | the break and pomodoro fields of a built configuration are `int()` of the validated settings |
| Config.FromDictActivityNumbers | asciipal/config.py:93-101 | the activity thresholds, timeouts and scale of a built configuration are the validated numbers, `int()` where the field is an integer |
| Config.IntBounds | asciipal/config.py:126-147 | with integer-valued settings, validation's positive and ordering rules hold of the integers |
| Config.DefaultFromDict | asciipal/config.py:21-112 | the defaults build a well-formed configuration |
| Config.ConfigFromYaml | asciipal/config.py:178-185 | an empty document yields the default configuration, and a non-mapping document is an error |
| Achievements.ToDict | asciipal/achievements.py:30-39 | serialisation produces exactly the seven statistics keys |
| Achievements.FromDict | asciipal/achievements.py:41-51 | an empty dictionary gives fresh statistics; a failure names a key that is present with the wrong type |
| Achievements.FromToDict | asciipal/achievements.py:30-51 | deserialising serialised statistics returns them unchanged |
| Achievements.ToFromDict | asciipal/achievements.py:30-51 | a well-typed dictionary survives `from_dict` then `to_dict` |
| Achievements.IntAt | asciipal/achievements.py:44-49 | text is read by `int()`: it succeeds exactly when the text is an integer literal, with that value |
| Achievements.RealAt | asciipal/achievements.py:46-47 | text is read by `float()`: it succeeds exactly when the text is a finite float literal |
| Achievements.IdsAt | asciipal/achievements.py:50 | `list()` of a text gives one id per character |
| Achievements.DaysAt | asciipal/achievements.py:48 | `dict()` of the daily breaks: it succeeds exactly when the key is missing, giving the empty map, or holds a day map, giving that map; a failure names the key |
| Achievements.CountFromText | asciipal/achievements.py:44 | a stats file holding the keypress count as the text `5` loads the count 5 |
| Achievements.Load | asciipal/achievements.py:65-70 | unreadable stats give fresh statistics, and readable stats are decoded |
| Achievements.Id | asciipal/achievements.py:93-109 | the id `prefix_threshold`; its partners `IdInjective` and `MilestoneIdsDistinct` state that ids identify milestones |
| Achievements.IdInjective | asciipal/achievements.py:93-109 | two milestones with the same id are the same milestone |
| Achievements.MilestoneIdsDistinct | asciipal/achievements.py:12-14 | the thirteen milestone ids are pairwise distinct |
| Achievements.Message | asciipal/achievements.py:97-111 | the banner text; its partners `MessageParts` and `MessageInjective` state its shape and that it names its milestone |
| Achievements.MessageParts | asciipal/achievements.py:97-111 | a banner is the kind's label, the figure, then the kind's unit and closing star |
| Achievements.MessageKind | asciipal/achievements.py:97-111 | equal banners belong to milestones of the same kind |
| Achievements.FigureOfMessage | asciipal/achievements.py:97-111 | the figure is the text between the kind's label and its unit |
| Achievements.FigureInjective | asciipal/achievements.py:97-111 | within a kind, the figure gives the threshold back |
| Achievements.MessageInjective | asciipal/achievements.py:97-111 | distinct milestones announce distinct banners |
| Achievements.FirstMilestoneTexts | asciipal/achievements.py:93-97 | the first milestone's id is `keypresses_1000` and its banner reads `★ Keypresses: 1,000! ★` |
| Achievements.ThousandTexts | asciipal/achievements.py:97 | 1000 renders as `1000` and groups as `1,000` |
| Achievements.ThousandDigits | asciipal/achievements.py:97 | 1000 renders as the digits `1000` |
| Achievements.Reached | asciipal/achievements.py:95-110 | the lifetime figure has reached the threshold; its partner `ReachedStaysReached` states it is monotone |
| Achievements.Unlockable | asciipal/achievements.py:95-110 | reached and not yet unlocked; its partners `UnlockedNotUnlockable` and `FirstNew` use it |
| Achievements.ReachedStaysReached | asciipal/achievements.py:92-113 | larger lifetime figures reach every threshold smaller ones reached |
| Achievements.UnlockedNotUnlockable | asciipal/achievements.py:95-110 | a milestone whose id is already unlocked is not unlocked again |
| Achievements.FirstNew | asciipal/achievements.py:92-113 | the search returns the first unlockable milestone at or after the start, or none exists |
| Achievements.Unlock | asciipal/achievements.py:92-113 | no message exactly when nothing is unlockable; otherwise the first unlockable milestone in table order is appended with its message, and nothing else changes |
| Achievements.UnlockKeepsDistinct | asciipal/achievements.py:95-110 | unlocking never duplicates an id, only extends the list, and touches no other field |
| Achievements.KeypressesComeFirst | asciipal/achievements.py:93-97 | with 1,000 keypresses and nothing unlocked, the first badge is `keypresses_1000`, shown with a thousands separator |
| Achievements.Quiet | asciipal/achievements.py:86-90 | quiet ticks produce one output each |
| Achievements.QuietCountsDown | asciipal/achievements.py:86-90 | the banner repeats while ticks remain, then goes silent |
| Achievements.ShownForTwelveCalls | asciipal/achievements.py:82-90 | a new banner is returned by exactly twelve consecutive updates |
| Achievements.Tick | asciipal/achievements.py:82-90 | the banner countdown; its partners `QuietCountsDown` and `ShownForTwelveCalls` state how long a banner stays |
| Achievements.SetMax | asciipal/achievements.py:116 | the latest day of a non-empty set is in it and no day is later |
| Achievements.MaxOf | asciipal/achievements.py:116 | the loop finds that maximum |
| Achievements.SortDescending | asciipal/achievements.py:116 | the dates, sorted newest first without duplicates, are exactly the recorded days |
| Achievements.NoDayBetween | asciipal/achievements.py:116-119 | no recorded day lies between two neighbours in the sorted list |
| Achievements.BreakDays | asciipal/achievements.py:120 | the days with at least one break; `RunToMeaning` and `ComputeStreak` use it |
| Achievements.RunTo | asciipal/achievements.py:115-135 | the length of the run of break days ending at a day; its partner `RunToMeaning` states it |
| Achievements.RunToMeaning | asciipal/achievements.py:128-133 | the run ending at day d covers exactly the break days from d - RunTo + 1 to d, and the day before it has no break |
| Achievements.FirstBreakDayIsLatest | asciipal/achievements.py:119-127 | days without breaks before the first break day are skipped, so the streak starts at the latest day with a break |
| Achievements.ComputeStreak | asciipal/achievements.py:115-135 | the loop computes the streak function: consecutive days with breaks counted back from the latest such day |
| Achievements.Streak | asciipal/achievements.py:115-135 | the streak as a function of the recorded days; `ComputeStreak` is proved to compute it and `FirstBreakDayIsLatest` relates it to the sorted days |
| Achievements.AchievementLines | asciipal/achievements.py:158-162 | one starred line per unlocked id in order, or the single `(none yet)` line |
| Achievements.StatLine | asciipal/achievements.py:150-154 | a statistics line is two spaces, then the name and colon padded with spaces to 17 characters, so the figure starts at column 19 after a space |
| Achievements.StatLineLabel | asciipal/achievements.py:150-154 | the label is the name followed by a colon, then spaces up to the figure |
| Achievements.ReportHeader | asciipal/achievements.py:148-157 | eight lines: the title, the keypress and click counts grouped with commas, the distance in km, the hours, the streak in `day(s)`, a blank line and `Achievements:` |
| Achievements.SignedGrouped | asciipal/achievements.py:150-151 | `f"{n:,}"` of any integer; its partner `SignedGroupedReadsBack` states it reads back |
| Achievements.Grouped | asciipal/achievements.py:97 | `f"{n:,}"` of a natural number; its partner `GroupedReadsBack` states it reads back |
| Achievements.GroupDigits | asciipal/achievements.py:97 | the digits with a comma before each group of three from the right; never empty for digits |
| Achievements.UncommaConcat | asciipal/achievements.py:97 | removing commas distributes over concatenation |
| Achievements.UncommaKeeps | asciipal/achievements.py:97 | removing commas from comma-free text changes nothing |
| Achievements.UncommaComma | asciipal/achievements.py:97 | a leading comma disappears |
| Achievements.GroupStep | asciipal/achievements.py:97 | one grouping step loses only its comma |
| Achievements.UncommaGroup | asciipal/achievements.py:97 | grouping digits and removing the commas gives the digits back |
| Achievements.GroupedReadsBack | asciipal/achievements.py:97 | `f"{n:,}"` without its commas is `str(n)`, so `int()` reads n back |
| Achievements.UncommaSign | asciipal/achievements.py:150-151 | a leading minus sign is kept |
| Achievements.SignedGroupedReadsBack | asciipal/achievements.py:150-151 | the same for any integer, with its sign |
| Achievements.ReportLines | asciipal/achievements.py:144-162 | the report is the eight `ReportHeader` lines, then the achievement lines |
| Achievements.ReportSplitsIntoLines | asciipal/achievements.py:163 | splitting the joined report on newlines recovers exactly those lines |
| Achievements.StatLineHasNoNewline | asciipal/achievements.py:150-154 | a statistics line from newline-free parts holds no newline |
| Achievements.FixedLinesHaveNoNewline | asciipal/achievements.py:149-156 | the title, the blank line and the heading hold no newline |
| Achievements.KeysLineHasNoNewline | asciipal/achievements.py:150 | the keypress line holds no newline |
| Achievements.ClicksLineHasNoNewline | asciipal/achievements.py:151 | the click line holds no newline |
| Achievements.DistanceLineHasNoNewline | asciipal/achievements.py:152 | the distance line holds no newline when its rendering holds none |
| Achievements.TimeLineHasNoNewline | asciipal/achievements.py:153 | the same for the active-time line |
| Achievements.StreakLineHasNoNewline | asciipal/achievements.py:154 | the streak line holds no newline |
| Achievements.HeaderHasNoNewline | asciipal/achievements.py:148-157 | none of the eight header lines holds a newline |
| Achievements.AchievementLinesHaveNoNewline | asciipal/achievements.py:158-162 | achievement lines of newline-free ids hold no newline |
| Achievements.GroupNoNewline | asciipal/achievements.py:97 | grouping newline-free digits adds no newline |
| Achievements.GroupedHasNoNewline | asciipal/achievements.py:150-151 | a grouped count holds no newline |
| Achievements.DigitsHaveNoNewline | asciipal/achievements.py:154 | a natural number's digits hold no newline |
| Achievements.NumberHasNoNewline | asciipal/achievements.py:154 | an integer's rendering holds no newline |
| Achievements.FormatStatsReport | asciipal/achievements.py:144-163 | the report text; its partner `ReportSplitsIntoLines` states that it splits back into `ReportLines` |
| Achievements.AchievementManager.constructor | asciipal/achievements.py:55-63 | the loaded stats become the baseline of every lifetime counter, with no banner |
| Achievements.AchievementManager.WithTotals | asciipal/achievements.py:73-79 | lifetime counters are baseline plus session totals, and today's break count is recorded |
| Achievements.AchievementManager.CheckMilestones | asciipal/achievements.py:92-113 | the stats and message are those of `Unlock` |
| Achievements.AchievementManager.Update | asciipal/achievements.py:72-90 | folds in the session totals, unlocks at most one milestone and advances the banner countdown |
| Achievements.AchievementManager.UpdateBreakStreak | asciipal/achievements.py:115-135 | only the streak changes, to the streak of the recorded days |
| Achievements.AchievementManager.Report | asciipal/achievements.py:144-163 | the report is the report lines joined by newlines |
| Achievements.UpdateTwiceSameTotals | asciipal/achievements.py:72-90 | two `update` calls with the same session totals: the first sets each lifetime counter to baseline plus totals and records today's breaks; the second leaves the four counters and the daily breaks as the first left them |
| Achievements.UnlockOnlyUnlocks | asciipal/achievements.py:92-113 | checking milestones changes nothing but the unlocked list |
| Aquarium.BirdCount | asciipal/aquarium.py:9-15 | never more than 8 birds, and never negative for non-negative totals |
| Aquarium.TruncMonotone | asciipal/aquarium.py:14 | `int()` truncation is monotone |
| Aquarium.BirdCountMonotone | asciipal/aquarium.py:9-15 | more activity never means fewer birds |
| Aquarium.PlantLevelThresholds | asciipal/aquarium.py:18-29 | the plant level is 0 to 4, and reaches level k exactly at 1, 3, 5 and 10 minutes of activity |
| Aquarium.PlantLevelMonotone | asciipal/aquarium.py:18-29 | more active time never shrinks the plants |
| Aquarium.PlantLevel | asciipal/aquarium.py:18-29 | the plant level; its partner `PlantLevelThresholds` states the level and its thresholds |
| Aquarium.PaintSprite | asciipal/aquarium.py:42-44 | painting a sprite never changes the buffer's width |
| Aquarium.Paint | asciipal/aquarium.py:42-44 | painting in place into the character array gives the same buffer |
| Aquarium.BirdX | asciipal/aquarium.py:39-40 | each bird is clamped so the whole sprite fits |
| Aquarium.BirdSprite | asciipal/aquarium.py:41 | a bird is three characters wide; its partner `WingsAlternate` states how the wings flap |
| Aquarium.WingsAlternate | asciipal/aquarium.py:41 | neighbouring birds, and one bird on consecutive frames, show opposite wings; the pattern repeats every two birds and every two frames |
| Aquarium.BirdsKeepInk | asciipal/aquarium.py:38-44 | the first bird's cells stay wing strokes while later birds are drawn |
| Aquarium.InkOfSpaces | asciipal/aquarium.py:56 | a fresh row of spaces holds no stalk |
| Aquarium.InkAfterSet | asciipal/aquarium.py:61 | setting one cell adds at most one non-space character |
| Aquarium.Birds | asciipal/aquarium.py:36-44 | the bird buffer has exactly the content width |
| Aquarium.ScatterBirds | asciipal/aquarium.py:32-45 | the in-place implementation returns the bird line |
| Aquarium.BirdsChars | asciipal/aquarium.py:36-44 | the buffer holds only spaces and wing characters |
| Aquarium.BirdLineShape | asciipal/aquarium.py:32-45 | the line is empty exactly when there are no birds or the area is too narrow; otherwise exactly the width, holding only bird characters |
| Aquarium.LastBirdOnTop | asciipal/aquarium.py:38-44 | the last bird drawn is fully visible |
| Aquarium.BirdLineNotBlank | asciipal/aquarium.py:32-45 | with birds and room, the line is never blank |
| Aquarium.BirdLine | asciipal/aquarium.py:32-45 | the bird line; its partners `BirdLineShape`, `LastBirdOnTop` and `BirdLineNotBlank` state its shape |
| Aquarium.PlantRow | asciipal/aquarium.py:55-62 | each plant row has exactly the content width |
| Aquarium.Positions | asciipal/aquarium.py:52 | the five seaweed columns; its partner `PositionsInside` states where they lie |
| Aquarium.PositionsInside | asciipal/aquarium.py:52 | with room for plants, every seaweed column lies inside the row, the first at column 2 and the last three before the right edge |
| Aquarium.Leaf | asciipal/aquarium.py:59 | a leaf's lean; its partner `LeavesAlternate` states how it alternates |
| Aquarium.LeavesAlternate | asciipal/aquarium.py:59 | a leaf is `(` or `)`, and flips from frame to frame, from row to row and from column to column |
| Aquarium.BuildPlants | asciipal/aquarium.py:48-63 | the loop builds the plant lines |
| Aquarium.PlantRowFacts | asciipal/aquarium.py:55-62 | a row holds at most as many stalks as columns requested, and only spaces and `(`/`)` |
| Aquarium.PlantLinesShape | asciipal/aquarium.py:48-63 | no lines exactly without growth or room; otherwise one line per level, each of full width with at most `min(level+1, 5)` stalks |
| Aquarium.PlantLines | asciipal/aquarium.py:48-63 | the plant lines; `BuildPlants` is proved to compute them and `PlantLinesShape` states their shape |
| Aquarium.BuildAquariumScene | asciipal/aquarium.py:66-87 | at most one bird line, never blank, present exactly when there are birds and room; the plant lines for the current level |
| Effects.Clamp | asciipal/effects.py:91 | a coordinate is clamped into the content area and untouched when already inside |
| Effects.SpawnRate | asciipal/effects.py:106-111 | the spawn rate is at most 0.6, never negative, and positive exactly when there has been any activity |
| Effects.NoActivityNoBubbles | asciipal/effects.py:106-111 | no activity gives a zero spawn rate |
| Effects.Afloat | asciipal/effects.py:94 | the kept bubbles are exactly those still at or below the top edge |
| Effects.BubbleSystem.constructor | asciipal/effects.py:80-82 | no bubbles |
| Effects.BubbleSystem.Update | asciipal/effects.py:84-103 | every bubble rises one row and drifts inside the area, those above the top are dropped, and at most one new bubble is added at the bottom while fewer than four remain; no activity spawns none |
| Effects.Blink | asciipal/effects.py:148-154 | the visible fireflies are exactly those whose blink phase is lit this frame |
| Effects.MaxFlies | asciipal/effects.py:133 | 5 fireflies at night and 3 otherwise; `FireflySystem.Update` states the swarm is topped up to it |
| Effects.Lit | asciipal/effects.py:152 | the blink rule; its partner `DarkOnceInFour` states its period |
| Effects.DarkOnceInFour | asciipal/effects.py:152 | a firefly's phase repeats every four frames, and in any four consecutive frames it is dark on exactly one |
| Effects.ModFourNext | asciipal/effects.py:152 | the remainder by four steps 0, 1, 2, 3, 0 |
| Effects.LitIndices | asciipal/effects.py:150-154 | the lit positions, all in range; its partners `LitIndicesExactly` and `BlinkIsSubsequence` state them |
| Effects.LitFireflies | asciipal/effects.py:148-154 | the filtering loop computes `Blink` |
| Effects.LitIndicesExactly | asciipal/effects.py:150-154 | the lit positions are increasing, and a position is among them exactly when its phase is lit |
| Effects.BlinkIsSubsequence | asciipal/effects.py:150-154 | the visible list is the fireflies at the lit positions, in their original order |
| Effects.OneDarkFrameInFour | asciipal/effects.py:152 | each firefly is dark on exactly one frame in four |
| Effects.FireflySystem.constructor | asciipal/effects.py:117-120 | no fireflies, no offsets |
| Effects.FireflySystem.Update | asciipal/effects.py:122-154 | inactive clears everything; active tops up to 5 (night) or 3 fireflies, drifts each by at most one cell inside the area, keeps glyphs and offsets, and returns the lit ones |
| Effects.NamesDistinct | asciipal/effects.py:22-59 | the creature names are distinct |
| Effects.InNames | asciipal/effects.py:170-172 | a creature's name is unlocked exactly when one of its kind is active |
| Effects.NamesCount | asciipal/effects.py:163-184 | with distinct kinds, there are as many unlocked names as creatures |
| Effects.SpriteWidthSameBothWays | asciipal/effects.py:22-59 | left and right sprites of a creature are equally wide |
| Effects.Sprite | asciipal/effects.py:192-193 | the sprite for a direction and frame; its partner `SpriteWidthSameBothWays` states both directions are equally wide |
| Effects.Row | asciipal/effects.py:180-181 | a creature's row; its partner `RowInside` states where it lies |
| Effects.RowInside | asciipal/effects.py:180-181 | a creature's row is inside the area, and 0 when the area has no rows |
| Effects.Move | asciipal/effects.py:188-202 | moving keeps kind and row, picks the sprite for the direction and frame, and bounces so the sprite stays in the area |
| Effects.SpriteCells | asciipal/effects.py:204-206 | rendered cells lie on the creature's row, inside the area and the sprite, are non-space single characters, and carry the creature's tag |
| Effects.AllCells | asciipal/effects.py:186-208 | every emitted cell is a visible character inside the area, tagged with the name of an active creature |
| Effects.CreatureSystem.constructor | asciipal/effects.py:160-163 | no creatures, nothing unlocked |
| Effects.CreatureSystem.Unlock | asciipal/effects.py:169-184 | a creature is unlocked exactly when it was already or now meets its thresholds; new ones are appended at a fresh position and existing ones are kept |
| Effects.CreatureSystem.Consider | asciipal/effects.py:170-184 | one pass of the unlock loop: def i joins exactly when its name is not yet unlocked and its minimums are met, appended with its kind at a fresh position; otherwise nothing changes |
| Effects.UnlockedStep | asciipal/effects.py:170-178 | after def i, the defs up to i are unlocked exactly when they were or meet their minimums, and later defs are as they were |
| Effects.JoinKeepsDistinct | asciipal/effects.py:178-184 | appending a creature whose name is not yet unlocked keeps kinds distinct, keeps the old creatures, and adds exactly its name |
| Effects.CreatureSystem.Join | asciipal/effects.py:178-184 | joining a creature records its name as unlocked, appends it after the existing ones with its own row, a column in range and a step of one, and keeps one creature per kind |
| Effects.CreatureSystem.MoveAll | asciipal/effects.py:186-208 | every creature is replaced by its moved form, and the emitted cells are `AllCells` of the old creatures, which draws each at its moved position (`Move(c).0`) |
| Effects.AllCellsStep | asciipal/effects.py:186-208 | one more creature appends its own cells after the earlier creatures' cells |
| Effects.CreatureSystem.Update | asciipal/effects.py:165-208 | unlock then move; one creature per unlocked name |
| Effects.Step | asciipal/effects.py:188-206 | one creature's move and rendering agree with `Move` and `SpriteCells` |
| Effects.Render | asciipal/effects.py:204-206 | the rendering loop produces `SpriteCells` |
| Effects.KindsKept | asciipal/effects.py:186-202 | moving keeps kinds distinct and directions ±1, and keeps the set of names |
| Effects.SameKindsSameNames | asciipal/effects.py:186-202 | sequences with the same kinds give the same names |
| Effects.Tagged | asciipal/effects.py:233-237 | each particle becomes one overlay at its position with the given tag |
| Effects.Layers | asciipal/effects.py:233-243 | the three layers can be read back from the combined overlay list |
| Effects.EffectsManager.constructor | asciipal/effects.py:214-218 | three fresh, empty systems |
| Effects.EffectsManager.Update | asciipal/effects.py:220-243 | the overlays are the bubbles, then the lit fireflies (none unless night or flow), then `AllCells` of the creatures after unlocking; the three systems' new states follow `BubbleStep`, `FireflyStep` and `CreatureStep` from their old states |
| Character.NonBlank | asciipal/character.py:57 | the filter keeps only non-blank chunks, and yields none exactly when all are blank |
| Character.Width | asciipal/character.py:62-65 | the width is the longest line over all frames |
| Character.WidthStep | asciipal/character.py:62-65 | one more chunk widens the width to the larger of the old width and the chunk's longest line |
| Character.PadLines | asciipal/character.py:68-69 | each line is left-justified to the width |
| Character.PadLinesKeepSeparatorFree | asciipal/character.py:68-69 | padding lines adds no newline |
| Character.PadAll | asciipal/character.py:66-69 | each frame is padded to the common width |
| Character.ParseFrames | asciipal/character.py:55-70 | the imperative parser computes the parsed frames |
| Character.PadChunks | asciipal/character.py:62-70 | the padding loops compute the padded frames |
| Character.ScanWidth | asciipal/character.py:62-65 | the nested loops compute the common width |
| Character.PadEach | asciipal/character.py:66-69 | the loop pads each frame |
| Character.Widen | asciipal/character.py:64-65 | widening by a frame's lines takes their maximum |
| Character.ParsedNeverEmpty | asciipal/character.py:55-70 | parsing always yields at least one frame; all-blank text yields the fallback face; otherwise the non-blank chunks padded to the common width |
| Character.ParsedShape | asciipal/character.py:55-70 | every parsed frame keeps its lines in order, each padded with spaces to the same width, so frames never change size |
| Character.ParsedFrames | asciipal/character.py:55-70 | frame parsing; its partners `ParsedNeverEmpty` and `ParsedShape` state the result's shape |
| Character.PadAllShape | asciipal/character.py:62-69 | the same shape fact at chunk level |
| Character.CustomFrames | asciipal/character.py:72-84 | custom art always yields at least one frame, falling back to the default face on blank or unreadable files |
| Character.BundledFrames | asciipal/character.py:86-99 | bundled art, when usable, has at least one frame |
| Character.FramesFor | asciipal/character.py:46-53 | every state has at least one frame |
| Character.FramesForOrder | asciipal/character.py:46-53 | custom art wins, then bundled art, then the built-in face, then the generic fallback |
| Character.DefaultFace | asciipal/character.py:53 | the built-in face is never empty, and a state without one gets the fallback `(•_•)` |
| Character.CustomPath | asciipal/character.py:47-48 | the custom-art path for a state; `FramesForOrder` states that it takes precedence |
| Character.FrameCount | asciipal/character.py:43-44 | the frame count is positive |
| Character.ArtForPeriodic | asciipal/character.py:39-41 | the art cycles through the frames with period equal to the frame count |
| Character.ArtFor | asciipal/character.py:39-41 | the art for a frame; its partner `ArtForPeriodic` states it cycles with the frame count |
| Character.CharacterRenderer.constructor | asciipal/character.py:23-37 | the maximum art width bounds every line of every state's frames and is attained by one of them (or is 0) |
| Character.CharacterRenderer.MaxArtWidth | asciipal/character.py:35-37 | the width bounds every line of every state's frames and is attained by one of them, or is 0 |
| Character.CharacterRenderer.Art | asciipal/character.py:39-41 | the art is the state's frame at position `frame % frame_count`, so it is one of the state's frames |
| Character.WidestLine | asciipal/character.py:31-33 | the loop over frames finds the widest line |
| Character.LongestLine | asciipal/character.py:32-33 | the loop over one frame's lines finds the longest |
| TimeAwareness.GetPeriod | asciipal/time_awareness.py:35-42 | every hour maps to a period in the table |
| TimeAwareness.PeriodPartition | asciipal/time_awareness.py:35-42 | morning is 6-11, afternoon 12-16, evening 17-20, and night every other hour |
| TimeAwareness.TablesWellFormed | asciipal/time_awareness.py:15-32 | the table has exactly the four periods, each with two equally wide frames above and below, and the afternoon is empty |
| TimeAwareness.CurrentEffect | asciipal/time_awareness.py:49-56 | no decoration exactly when disabled; otherwise the current period's above and below frames at position `frame % 2` |
| TimeAwareness.CurrentEffectPeriodic | asciipal/time_awareness.py:53-56 | frames two apart in the same period show the same decoration |
| TimeAwareness.AfternoonIsPlain | asciipal/time_awareness.py:15-32 | enabled afternoons show two empty lines |
| Weather.EffectNamed | asciipal/weather.py:24-57 | every weather effect has two equally wide frames above and below |
| Weather.EffectsCoverCategories | asciipal/weather.py:24-57 | there is an effect for exactly the eight categories |
| Weather.CodeToEffect | asciipal/weather.py:160-161 | `WWO_CODE_MAP.get(code)`; its partners `CodeToEffectKnownCodes` (a category exactly for the 48 known codes) and `CodeMapCategoriesKnown` (every category returned names an effect) state it |
| Weather.CodeToEffectKnownCodes | asciipal/weather.py:60-161 | a weather code maps to a category exactly when it is one of the 48 known codes |
| Weather.CodeMapCategoriesKnown | asciipal/weather.py:60-161 | every mapped category has an effect |
| Weather.SampleCodes | asciipal/weather.py:60-161 | 113 is clear, 395 is thunder, and unknown codes map to nothing |
| Weather.PollIntervalSeconds | asciipal/weather.py:185-192 | polling waits at least five minutes, and exactly the configured minutes when at least five |
| Weather.WeatherManager.constructor | asciipal/weather.py:165-170 | no current effect |
| Weather.WeatherManager.StoreFetched | asciipal/weather.py:200-203 | a fetched code replaces the effect with its category; a failed fetch keeps the old one |
| Weather.WeatherManager.ClearEffect | asciipal/weather.py:205-207 | the effect is cleared |
| Weather.WeatherManager.CurrentEffect | asciipal/weather.py:209-220 | a decoration is shown exactly when enabled with a known category, alternating by frame parity |
| Weather.FetchedEffectShown | asciipal/weather.py:194-220 | a known code, once fetched, is displayed |
| Weather.ClearedShowsNothing | asciipal/weather.py:205-220 | after clearing, nothing is displayed |
| Weather.UnknownCodeShowsNothing | asciipal/weather.py:160-161 | an unknown code displays nothing |
| Weather.CurrentEffectPeriodic | asciipal/weather.py:216-220 | the decoration repeats every two frames |
| App.MinutesLeftIsCeiling | asciipal/app.py:163 | `int((s + 59) // 60)` is the ceiling of s/60 for whole seconds, and never negative for non-negative s |
| App.MinutesLeft | asciipal/app.py:163 | `int((s + 59) // 60)`; its partner `MinutesLeftIsCeiling` states it is the ceiling |
| App.RenderStatus | asciipal/app.py:156-180 | the displayed mood is the machine's mood or one of sleeping/alarmed/watching; silent mode shows the mood unchanged and no line |
| App.OnBreakSleeps | asciipal/app.py:161-165 | on a break the character sleeps; verbose mode adds the minutes left |
| App.DueBreakAlarms | asciipal/app.py:167-174 | a due break shows alarmed exactly at insistence or tantrum and watching otherwise, with the stage in the line |
| App.NotDuePassesThrough | asciipal/app.py:176-180 | otherwise the mood passes through, with a line only in verbose mode during the suggestion stage |
| App.AnimStepBounds | asciipal/app.py:110-116 | the tick counter stays below 3; a mood change restarts the animation; the frame advances on every third tick |
| App.AnimEveryThirdTick | asciipal/app.py:113-116 | after n quiet ticks from a fresh counter, the frame advanced by n / 3 |
| App.AnimStep | asciipal/app.py:110-116 | one animation tick; its partners `AnimStepBounds` and `AnimEveryThirdTick` state its behaviour |
| App.DemoCycle | asciipal/app.py:182-197 | the demo script repeats every 80 ticks |
| App.DemoPhases | asciipal/app.py:183-197 | pauses, slow typing on even ticks, fast typing, mouse movement and double clicks in their tick ranges |
| App.DemoActionAt | asciipal/app.py:182-197 | the scripted demo action; its partners `DemoCycle` and `DemoPhases` state the script |
| App.PruneAll | asciipal/activity_tracker.py:101-108 | `_prune` of all three queues at one cutoff; `RecordedKeepsNewEntries` states what survives it |
| App.Recorded | asciipal/app.py:183-197 | the queues after one tick's scripted input: a pause leaves them, a key press or mouse move appends its entry and prunes, a double click does so twice; partner `RecordedKeepsNewEntries` |
| App.RecordedKeepsNewEntries | asciipal/app.py:186-195 | with a positive window, every scripted input leaves the old queues pruned to the window followed by its own entries: one key time, one mouse sample, or two click times |
| App.Perform | asciipal/app.py:183-197 | the tracker calls of one tick: the keypress, click and distance totals grow by the scripted counts, the last input time becomes `now` unless pausing, and the queues are `Recorded` of the old ones |
| App.AsciiPalApp.constructor | asciipal/app.py:28-80 | running, not shut down, no headless line, demo and animation counters at zero, empty tracker |
| App.AsciiPalApp.AdvanceAnimation | asciipal/app.py:110-116 | the animation counters follow `AnimStep`; nothing else changes |
| App.AsciiPalApp.SimulateInput | asciipal/app.py:182-199 | the tracker's totals and last input time follow the tick's scripted action `DemoActionAt(old ticks)`, its queues are `Recorded` of the old queues for that action, the tick counter advances by one and the demo clock by 5 seconds |
| App.AsciiPalApp.ReportHeadless | asciipal/app.py:144-149 | a line is printed exactly when it differs from the previous one, and is then remembered |
| App.AsciiPalApp.Shutdown | asciipal/app.py:211-215 | shutdown runs once: the first call stops the app, later calls do nothing |
| App.HeadlessLine | asciipal/app.py:144-146 | the line starts with `State=` and the mood, and is longer exactly when there is a break line |
| App.HeadlessLineInjective | asciipal/app.py:144-146 | for moods without spaces, equal headless lines mean the same mood and the same break line |
| App.UpToSpace | asciipal/app.py:144-146 | the text before the first space holds no space |
| App.UpToSpaceOf | asciipal/app.py:144-146 | for a space-free mood followed by nothing or a space, the text before the first space is the mood |
| App.MoodLinesDistinct | asciipal/app.py:144-146 | distinct moods of the state machine give distinct headless lines, whatever the break lines |
| App.ReportTwice | asciipal/app.py:147-149 | reporting the same status twice prints only once |
| App.ShutdownTwice | asciipal/app.py:211-215 | a second shutdown performs nothing |
| Overlay.TablesCoverTags | asciipal/overlay.py:43-156 | there are 15 region tags, and every colour table has an entry per tag |
| Overlay.TagsDistinct | asciipal/overlay.py:152-156 | the region tags are distinct |
| Overlay.RegionTable | asciipal/overlay.py:163-166 | the chosen table covers every tag |
| Overlay.RegionTableFallbacks | asciipal/overlay.py:163-166 | an unknown scheme uses the default table; widget mode uses one table for every scheme |
| Overlay.ResolveRegionColors | asciipal/overlay.py:159-171 | every tag gets a colour: its table colour, or the foreground when the table has none |
| Overlay.ColorEach | asciipal/overlay.py:168-171 | the loop maps each of a list of distinct tags to its table colour, or to the foreground where the table has none |
| Overlay.ForegroundTags | asciipal/overlay.py:43-150 | only `status` and `default` fall back to the foreground colour |
| Overlay.ForegroundFallback | asciipal/overlay.py:184-192 | an unknown scheme uses the default foreground |
| Overlay.Foreground | asciipal/overlay.py:184-192 | the foreground colour; its partner `ForegroundFallback` states the fallback for unknown schemes |
| Overlay.Limit | asciipal/overlay.py:314 | tags apply only to columns that have both a character and a tag |
| Overlay.RowSpans | asciipal/overlay.py:313-325 | the spans of a row are maximal same-tag runs, in order, non-overlapping, and cover every non-default tagged column |
| Overlay.ExtendCover | asciipal/overlay.py:313-325 | appending the next maximal run keeps the spans ordered, runs, and covering up to its end |
| Overlay.ExtendCoverage | asciipal/overlay.py:313-325 | the coverage half of that step |
| Overlay.SpansOrdered | asciipal/overlay.py:313-325 | any earlier span ends before a later one starts |
| Overlay.CoveredOnce | asciipal/overlay.py:313-325 | each column belongs to at most one span |
| Overlay.SpansInsideRow | asciipal/overlay.py:313-325 | a span's columns lie within the row and carry the span's non-default tag |
| Overlay.ColoredSpans | asciipal/overlay.py:308-325 | one span list per row up to the shorter of lines and region rows, each covering its row |
| Overlay.PlaceWindow | asciipal/overlay.py:340-363 | without left/right the window is centred horizontally (to within one pixel), and without top/bottom vertically |
| Overlay.PlaceTopLeft | asciipal/overlay.py:349-357 | `top-left` sits 24 px from both edges |
| Overlay.PlaceTopCenter | asciipal/overlay.py:353-357 | `top-center` is centred horizontally, 24 px from the top |
| Overlay.PlaceTopRight | asciipal/overlay.py:351-357 | `top-right` keeps 24 px from the right and top |
| Overlay.PlaceCenterLeft | asciipal/overlay.py:349-361 | `center-left` keeps 24 px from the left and is centred vertically |
| Overlay.PlaceCenter | asciipal/overlay.py:353-361 | `center` is centred both ways |
| Overlay.PlaceCenterRight | asciipal/overlay.py:351-361 | `center-right` keeps 24 px from the right and is centred vertically |
| Overlay.PlaceBottomLeft | asciipal/overlay.py:349-359 | `bottom-left` keeps 24 px from the left and bottom |
| Overlay.PlaceBottomCenter | asciipal/overlay.py:353-359 | `bottom-center` is centred horizontally, 24 px from the bottom |
| Overlay.PlaceBottomRight | asciipal/overlay.py:351-359 | `bottom-right` keeps 24 px from the right and bottom |
| Overlay.RightMirrorsLeft | asciipal/overlay.py:349-352 | the right margin of a right placement equals the left margin of a left placement |
| Overlay.Overlay.constructor | asciipal/overlay.py:175-229 | colours resolved for the scheme and mode, width ratchet at 0, not dragged |
| Overlay.Overlay.SetMinWidth | asciipal/overlay.py:273-275 | the width only ratchets up, to at least the request |
| Overlay.Overlay.FitText | asciipal/overlay.py:279-283 | the width grows to the longest line when needed, so every line fits |
| Overlay.Overlay.UpdateText | asciipal/overlay.py:277-290 | the width becomes the larger of the old width and the longest line, so every line fits and it never shrinks; the window is re-placed exactly when not dragged, and the drag state and start point are unchanged |
| Overlay.Overlay.UpdateColored | asciipal/overlay.py:292-330 | the same, plus the tag spans of every row |
| Overlay.Overlay.OnDragStart | asciipal/overlay.py:255-257 | records the start point |
| Overlay.Overlay.OnDragMotion | asciipal/overlay.py:259-267 | dragging becomes sticky once a move reaches 3 px; the window moves exactly when dragged, by the pointer offset |
| Overlay.Overlay.OnDoubleClick | asciipal/overlay.py:269-271 | re-enables automatic placement |
| Overlay.FitAll | asciipal/overlay.py:277-283 | after a sequence of updates, every line of every text seen fits, and the width never shrank |

## Left out

- File and network I/O become parameters. This covers the YAML config file, the stats JSON file (`save`) and the art files. The art-file cache (`_cache`) is left out because it only memoises reads. The HTTP weather fetch and its JSON decoding are left out too: the fetched weather code arrives as an `Option<int>`.
- The weather poll thread, its lock and `stop`, and the input monitor thread are left out. They are concurrency, not decision logic.
- The Tk window plumbing is left out: fonts, transparency, menus, `mainloop`, `run`, and the `_menu_*` callbacks. Screen and window sizes are passed to `PlaceWindow` as numbers. The Tk row index (`row_idx + 1`) is not modelled, because spans are reported per row.
- `system_resources`, `battery`, `platform_support`, `print_summary`, and the command-line parsing and `run` entry point are outside this model.
- In `app.tick`, the composition of the art with the decorations uses `str.format` centring (`asciipal/app.py:117-142`). Only its parts are modelled: status rendering, the animation counter, the weather and time decorations, and the headless line.
- ActivityTracker.ActivityTracker.RecordMouseMove: takes the distance, not `dx`/`dy`, because square roots are not modelled. The demo's `record_mouse_move(320, 280)` becomes an arbitrary non-negative `moveDistance`.
- Floats are exact reals: rounding is not modelled. A float text is read as its exact decimal value, without rounding to the nearest binary64 number.
- Numerals.ParseInt: `int()` and `float()` accept only the ASCII digits 0-9. Python also accepts other Unicode decimal digits, such as Arabic-Indic ones.
- Config.ToStr: `str()` of a float that is not integral or is at least 10^16 in size, of a list or of a mapping gives a fixed stand-in text (`<float>`, `<list>`, `<dict>`), not Python's rendering. No rule inspects these texts.
- Achievements.RealAt: a text that `float()` reads as an infinity or NaN counts as unreadable, because the record's real fields cannot hold those values.
- Achievements.DaysAt: `dict()` of anything but a mapping is a failure; Python would also accept a list of pairs.
- Achievements.IdsAt: `list()` of a mapping is a failure; Python would give its keys. Stats values that JSON decodes to `null` have no `Field` case.
- The `.1f` formatting of kilometres and hours in the stats report is passed in as text (`kmText`, `hoursText`). The `:,` grouping of integers is modelled.
- Dates in `daily_breaks` are integer day numbers, not ISO strings, so `date.fromisoformat` and the `(prev - d).days` subtraction become integer arithmetic.
- Random choices (`rng.choice`, `randint`, `random()`) are arbitrary values within the ranges the program draws from. Bubble weights and probabilities are not modelled.
- Particles and creatures are values in sequences. The in-place mutation of shared `Particle` objects is not modelled as aliasing.
- The dictionaries `WWO_CODE_MAP`, `EFFECTS`, `_REGION_COLORS_RAW` and `_WIDGET_REGION_COLORS_RAW` are encoded as `match`/`if` functions or as sequences in the order of `ALL_REGION_TAGS`. Their contents are the program's.
- Character.FramesFor: a truthy `custom_art` entry that is not a string is treated as absent; the program would raise `TypeError` inside `Path`.
- ActivityTracker.ActivityTracker.constructor requires a positive window, which the program assumes but does not check.
- App.AsciiPalApp.Shutdown: `update_break_streak`, `save` and the thread stops it triggers are not modelled; only the once-only flag and `running` are.
- App.ShutdownTwice: when the app was already shut down before the first call, it does not state `!running`. The model has no invariant tying `shutdownDone` to `running`, just as the program does not.
- Character.ParsedNeverEmpty: states "all chunks blank ⇒ fallback face", not an if-and-only-if. A single non-blank chunk equal to the fallback face also yields `[FALLBACK]`.
- StateMachine.StateMachine.ForceState: takes a `Mood`, whereas `force_state` accepts any `str`; a state name outside the eight moods is not representable.
