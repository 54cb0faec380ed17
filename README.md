# MindMate components, modelled in Dafny

MindMate is a mental-wellness web application made of React components.
This project models the behaviour of five of them:

- the **mood tracker**: a five-step mood scale, and a save that keeps one entry per calendar day in the `moods` collection;
- the **journal**: a keyword-count sentiment analysis of the draft, and a save that appends to `journalEntries`;
- the **affirmation generator**: a random pick from fixed lists, and a history capped at ten records, newest first, mirrored in `affirmationsHistory`;
- the **vent space**: anonymous posts shown newest first, each removed by its own timer ten minutes after posting, and "time ago" labels;
- the **breathing exercise**: a seconds counter driven by a one-second interval, an eight-second inhale/exhale cycle, and an `m:ss` clock.

Each component's state (its `useState` fields and the local-storage collection it writes) is a class.
Every event handler or timer body is a method of that class, and its `ensures` states the whole new state.
The list and string logic is written as functions with lemmas about them:

- upsert by day;
- whitespace splitting;
- counting;
- capped prepend;
- sorting;
- filtering;
- time formatting.

`Text.dfy` holds the JavaScript string semantics the components rely on:

- the `\s` whitespace class and `trim()`;
- ASCII `toLowerCase()`;
- `split(/\s+/)`;
- the decimal text of an integer.

The clock, `Math.random()` and local storage are parameters.
A timer callback is a separate method that the environment calls later.

## Model

| member | source | states |
|---|---|---|
| Text.Trim | src/components/Journal.tsx:11 | `trim()` is the trailing cut applied after the leading cut; `Text.TrimStart` and `Text.TrimEnd` state what each cut keeps and `Text.BlankIffAllSpace` when nothing is left |
| Text.TrimStart | src/components/Journal.tsx:11 | the leading-whitespace cut inside `trim()`: the result is a suffix of the text, everything cut off is whitespace, and the result is empty or starts with non-whitespace |
| Text.TrimEnd | src/components/Journal.tsx:11 | the trailing-whitespace cut inside `trim()`: the result is a prefix, everything cut off is whitespace, and the result is empty or ends with non-whitespace |
| Text.IsBlank | src/components/VentSpace.tsx:38 | the `!s.trim()` guard; `Text.BlankIffAllSpace` gives its meaning |
| Text.BlankIffAllSpace | src/components/Journal.tsx:11 | `!s.trim()` holds exactly when every character of `s` is JavaScript whitespace |
| Text.ToLower | src/components/Journal.tsx:27 | lower-casing keeps the length and the whitespace positions, and leaves no upper-case ASCII letter; every other character is unchanged |
| Text.Tokens | src/components/Journal.tsx:27 | `split(/\s+/)` always yields at least one piece, and no piece contains whitespace |
| Text.TokensSplitAtRuns | src/components/Journal.tsx:27 | `split(/\s+/)` cuts at maximal whitespace runs: there is one run fewer than pieces, each run is non-empty whitespace, putting the runs back between the pieces gives the text, and every piece but the first and last is non-empty |
| Text.TokensCoverText | src/components/Journal.tsx:27 | the pieces, glued back together, are the text with its whitespace removed: no character is lost or invented |
| Text.TokensOfJoin | src/components/Journal.tsx:27 | splitting words joined by single spaces gives back exactly those words |
| Text.Decimal | src/components/VentSpace.tsx:44 | `n.toString()` for a non-negative integer is all digits with no leading zero, and a single digit exactly when `n < 10` |
| Text.DecimalRoundTrip | src/components/VentSpace.tsx:44 | reading the decimal text back gives the number, so distinct clock values give distinct ids |
| Text.IntText | src/components/VentSpace.tsx:65 | a template literal prints an integer as decimal digits without a leading zero, with a leading `-` exactly when it is negative |
| Text.IntTextRoundTrip | src/components/VentSpace.tsx:65 | reading the printed integer back gives the integer, for every integer |
| Mood.ScaleListsEachLevelOnce | src/components/MoodTracker.tsx:12-18 | the scale has five options with values 1 to 5 in order, each with its own emoji |
| Mood.DayKey | src/components/MoodTracker.tsx:100 | `split('T')[0]` is the longest prefix without a 'T', and is followed by a 'T' whenever it is not the whole string |
| Mood.IndexOfDay | src/components/MoodTracker.tsx:108 | `findIndex` returns the first position holding the day, or -1 exactly when no entry holds it |
| Mood.FindDayIndex | src/components/MoodTracker.tsx:108 | the entry-by-entry search returns the same index as the specification |
| Mood.Upsert | src/components/MoodTracker.tsx:107-114 | the collection after a save holds the saved entry, and grows by one exactly when the day had no entry; `Mood.UpsertPlacement` says where it goes |
| Mood.UpsertPlacement | src/components/MoodTracker.tsx:107-114 | a known day is overwritten in place at its first position, keeping the length; a new day is appended at the end; every other position is unchanged |
| Mood.UpsertKeepsOtherDays | src/components/MoodTracker.tsx:110-114 | entries of other days are untouched, and every entry of another day in the result was there before at the same position |
| Mood.UpsertKeepsDaysUnique | src/components/MoodTracker.tsx:107-116 | saving keeps days unique, and the saved entry is in the collection as the only entry of its day |
| Mood.UpsertSameDayTwice | src/components/MoodTracker.tsx:100-116 | two saves on one day equal the second save alone |
| Mood.SavingTwiceKeepsOneEntry | src/components/MoodTracker.tsx:94-124 | after two saves in one day the collection has exactly one entry for the day, holding the later mood and note |
| Mood.MoodTracker.constructor | src/components/MoodTracker.tsx:7-8 | the form starts with no selection and an empty note over the stored collection |
| Mood.MoodTracker.SelectMood | src/components/MoodTracker.tsx:90-92 | selecting records the level and changes nothing else |
| Mood.MoodTracker.EditNote | src/components/MoodTracker.tsx:173-174 | editing the note changes only the note |
| Mood.MoodTracker.SaveMood | src/components/MoodTracker.tsx:94-124 | with no selection nothing changes; otherwise today's entry, holding the selected level and note, is upserted and the form is reset |
| Journal.WordListsDisjoint | src/components/Journal.tsx:21-22 | no word is both positive and negative |
| Journal.CountIn | src/components/Journal.tsx:28-31 | a counter never exceeds the number of tokens |
| Journal.CountsWithinTokens | src/components/Journal.tsx:24-31 | the two counters together never exceed the number of tokens |
| Journal.CountSentimentWords | src/components/Journal.tsx:24-31 | the loop over the tokens yields the number of positive and of negative tokens |
| Journal.Styled | src/components/Journal.tsx:33-46 | each label's fixed emoji and colour carry that label; `Journal.StylesDistinct` shows no two share them |
| Journal.StylesDistinct | src/components/Journal.tsx:33-46 | different labels never share an emoji or a colour |
| Journal.Classify | src/components/Journal.tsx:33-46 | Positive exactly when positive words outnumber negative ones, Negative exactly when the reverse holds, Neutral exactly on a tie; emoji and colour are the label's own |
| Journal.AnalyzeText | src/components/Journal.tsx:27-46 | the analysis of a text: its lower-cased whitespace pieces are counted and classified; `Journal.AnalyzeJoined` and the three samples state its results |
| Journal.LowerWords | src/components/Journal.tsx:27 | lower-casing and splitting words joined by single spaces gives their lower-cased forms |
| Journal.AnalyzeJoined | src/components/Journal.tsx:20-51 | the analysis of a sentence of plain words is decided by the counts over its lower-cased words |
| Journal.Analyze | src/components/Journal.tsx:20-46 | the timer body's one pass over the words, followed by the classification, gives exactly `Journal.AnalyzeText` of the text |
| Journal.JournalEditor.constructor | src/components/Journal.tsx:6-8 | the editor starts with an empty draft, no analysis, no pending timer and the stored entries |
| Journal.JournalEditor.EditDraft | src/components/Journal.tsx:99 | editing changes only the draft; a pending timer keeps the text it was scheduled for |
| Journal.JournalEditor.RequestAnalysis | src/components/Journal.tsx:10-20 | callable only while the button is enabled (line 109); a blank draft is refused with nothing changed; otherwise the old analysis is cleared, the editor is busy and a timer is pending for the current draft; busy holds exactly while a timer is pending, and only for a non-blank text |
| Journal.JournalEditor.CompleteAnalysis | src/components/Journal.tsx:20-50 | only a pending timer fires; it shows the analysis of the non-blank text an accepted request scheduled it for, and clears the busy flag and the pending timer |
| Journal.JournalEditor.SaveEntry | src/components/Journal.tsx:53-72 | a blank draft is refused with nothing changed; otherwise exactly one entry with the draft and the analysis on show is appended, and both are cleared |
| JournalSamples.PositiveSample | src/components/Journal.tsx:20-51 | "I am happy and grateful" is analysed as Positive |
| JournalSamples.NegativeSample | src/components/Journal.tsx:20-51 | "I feel sad and anxious" is analysed as Negative |
| JournalSamples.NeutralSample | src/components/Journal.tsx:20-51 | "The weather is cloudy" is analysed as Neutral |
| Affirmations.Pick | src/components/Affirmations.tsx:59-60 | `Math.floor(r * n)` for a draw in [0, 1) is a valid index and the floor of `r * n` |
| Affirmations.CappedPrepend | src/components/Affirmations.tsx:73 | the new record is first, followed by the first nine old ones; the length is the old length plus one, capped at ten |
| Affirmations.GenerateAll | src/components/Affirmations.tsx:73 | after one or more generations the history holds at most ten records, the latest created first; with none it is unchanged; `Affirmations.GenerateAllKeepsNewest` gives its whole value |
| Affirmations.GenerateAllKeepsNewest | src/components/Affirmations.tsx:55-78 | after any run of generations the history is the created records, latest first, followed by the old history, cut to ten |
| Affirmations.TenGenerationsFillHistory | src/components/Affirmations.tsx:73 | ten or more generations leave exactly the ten latest records, newest first |
| Affirmations.InsertByTime | src/components/Affirmations.tsx:52 | inserting into a newest-first list keeps it newest first and adds exactly the one record |
| Affirmations.SortNewestFirst | src/components/Affirmations.tsx:52 | the sorted history is newest first and a permutation of the stored records |
| Affirmations.SortKeepsSortedHistory | src/components/Affirmations.tsx:52 | a history already newest first is loaded unchanged |
| Affirmations.PrependKeepsNewestFirst | src/components/Affirmations.tsx:46-78 | when the clock has not gone back, a generation keeps the history newest first, so reloading it does not reorder it |
| Affirmations.AffirmationGenerator.constructor | src/components/Affirmations.tsx:12-15 | the generator starts with no affirmation, the first emoji, an empty history and the stored records |
| Affirmations.AffirmationGenerator.LoadHistory | src/components/Affirmations.tsx:46-53 | the history becomes the stored records, newest first, as a permutation |
| Affirmations.AffirmationGenerator.Generate | src/components/Affirmations.tsx:55-56 | callable only while the button is enabled (line 136); the generator becomes busy and nothing else changes |
| Affirmations.AffirmationGenerator.CompleteGeneration | src/components/Affirmations.tsx:58-77 | runs only while a generation is pending; the shown text and emoji are the drawn list members; a record stamped with the clock is prepended to the history, capped at ten; storage receives the same list |
| Vent.SamplePosts | src/components/VentSpace.tsx:17-33 | the three sample posts, ids "1" to "3", stamped two, five and eight minutes before the mount; `Vent.SamplesOrdered` and `Vent.SampleAges` state their order and ages |
| Vent.SamplesOrdered | src/components/VentSpace.tsx:17-34 | three samples with distinct ids, strictly newest first, all stamped before the mount time |
| Vent.WithoutId | src/components/VentSpace.tsx:54 | the filter keeps exactly the posts with another id, and never adds one |
| Vent.WithoutIdAppend | src/components/VentSpace.tsx:54 | filtering works piece by piece, so the surviving posts keep their order |
| Vent.WithoutAbsentId | src/components/VentSpace.tsx:54 | removing an id no post carries changes nothing |
| Vent.WithoutIdTwice | src/components/VentSpace.tsx:53-55 | a removal is idempotent |
| Vent.WithoutPrepended | src/components/VentSpace.tsx:49-54 | a new post's own timer removes it from the front and filters the rest the same way |
| Vent.TimeAgo | src/components/VentSpace.tsx:58-66 | "just now" exactly for less than one minute, "1 minute ago" exactly for one to two minutes, otherwise the floored minute count followed by " minutes ago" |
| Vent.SampleAges | src/components/VentSpace.tsx:17-34 | on mount the `k`-th sample reads `3k + 2` minutes old: "2 minutes ago", "5 minutes ago" and "8 minutes ago" |
| Vent.VentBoard.constructor | src/components/VentSpace.tsx:15-35 | the board starts with the three samples, no timers and an empty draft |
| Vent.VentBoard.EditDraft | src/components/VentSpace.tsx:106 | editing changes only the draft |
| Vent.VentBoard.PostVent | src/components/VentSpace.tsx:37-56 | a blank draft is refused with nothing changed; otherwise the post goes in front, the draft is cleared, and a removal due ten minutes later is scheduled; every post keeps a pending timer |
| Vent.VentBoard.FireTimer | src/components/VentSpace.tsx:53-55 | a timer removes every post with its id and is itself consumed; every remaining post keeps a pending timer |
| Breathing.PhaseAt | src/components/BreathingExercise.tsx:47-52 | inhale exactly in the first four seconds of each eight-second cycle, exhale exactly in the last four |
| Breathing.PhaseCycle | src/components/BreathingExercise.tsx:46-52 | the phase repeats every eight seconds and flips every four |
| Breathing.TextsFollowCycle | src/components/BreathingExercise.tsx:88-108 | the headline and instruction follow the cycle, and the fallback texts are never shown |
| Breathing.BreathingText | src/components/BreathingExercise.tsx:99-108 | the headline for each phase; `Breathing.TextsFollowCycle` states which one is shown |
| Breathing.BreathingInstruction | src/components/BreathingExercise.tsx:88-97 | the instruction for each phase; `Breathing.TextsFollowCycle` states which one is shown |
| Breathing.FormatTime | src/components/BreathingExercise.tsx:82-86 | the clock text is digits, a colon, then exactly two digits, and the minutes have no leading zero; `Breathing.FormatTimeRoundTrip` shows it reads back to the counter |
| Breathing.FormatTimeRoundTrip | src/components/BreathingExercise.tsx:82-86 | the clock text has exactly two digits after the colon, naming fewer than sixty seconds, and reading it back gives the counter |
| Breathing.BreathingDriver.constructor | src/components/BreathingExercise.tsx:6-10 | the exercise starts idle at zero seconds, inhaling, with no interval |
| Breathing.BreathingDriver.Start | src/components/BreathingExercise.tsx:70-74 | starting resets the counter and phase and installs the interval |
| Breathing.BreathingDriver.Stop | src/components/BreathingExercise.tsx:76-80 | stopping resets the counter and phase and clears the interval |
| Breathing.BreathingDriver.Tick | src/components/BreathingExercise.tsx:40-56 | each tick adds one second and sets the phase for the new count; the interval stays installed exactly while running, and the phase matches the counter |
| Breathing.BreathingDriver.Unmount | src/components/BreathingExercise.tsx:63-67 | unmounting clears the interval and leaves counter and phase as they were |

## Left out

- Rendering is not modelled: JSX, animations, icons, the weekly mood chart, and the breathing page's technique and sound lists. None of them holds logic beyond display. The breathing page's `selectedSound` state belongs to the sound list and is left out with it.
- Local storage is not modelled as an external store:
  - each collection is a field of its component's class;
  - JSON encoding and decoding, and malformed stored JSON, are not modelled;
  - the `new Date(...)` revival in `loadHistory` is not modelled; a timestamp is an integer number of milliseconds.
- `alert` messages are not modelled; the refusals they accompany are, as a `false` result with the state unchanged.
- Environment inputs are parameters:
  - the clock, `Date.now()` and `toISOString()`;
  - `Math.random()`, as a real draw in [0, 1);
  - the setTimeout and setInterval scheduling. A timer body is a method that the environment calls, in any order and at any time. For the vent space, the due time is recorded but not enforced.
- Mood.MoodTracker.SaveMood: the mood level is a subset type from 1 to 5. The selection buttons pass only those values, so the falsy-zero case of `!selectedMood` cannot arise.
- Text.ToLower: only ASCII letters are lower-cased, and the length is always kept. JavaScript's `toLowerCase` also maps other characters, and it can lengthen the text: U+0130 becomes 'i' followed by the combining mark U+0307. Some of these results contain letters used in the word lists. The journal's counts are still unaffected:
  - a token that keeps a non-ASCII character, such as U+0307, equals no listed word;
  - the Kelvin sign becomes 'k', and no listed word contains a 'k'.
  The lower-cased text is not shown anywhere.
- Affirmations.Pick: the product `r * n` is taken on exact reals rather than IEEE doubles.
- Affirmations.AffirmationGenerator.CompleteGeneration:
  - one clock reading gives both the id and the timestamp;
  - the timer body uses the history at the time it fires, not the one captured when the button was clicked. The button is disabled while generating, so no other change can come between the two.
- Journal.JournalEditor.CompleteAnalysis: the pending timer is one field, not a queue. The analyse button is disabled while busy, so at most one timer is pending at a time.
- Vent.VentBoard.PostVent: one clock reading gives both the id and the timestamp. Ids are not shown to be unique, because two posts in the same millisecond share one; a removal then removes both.
- Vent.SamplePosts: the three sample posts are stamped from one mount time, whereas the source reads the clock once per sample.
- Breathing.BreathingDriver.Start and Breathing.BreathingDriver.Stop: the buttons' `disabled` state is not modelled. Either may be called in any state of a mounted view.
- Affirmations.Emojis: the emoji list and the initial emoji are kept as the source spells them: UTF-8 bytes decoded as Windows-1252 text.
- Affirmations.SortNewestFirst: stability is not stated. JavaScript's sort keeps records with equal timestamps in their stored order, and the model's insertion does too, but no lemma proves it.
