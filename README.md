# JavaBOLT learning app: a Dafny model of its core

JavaBOLT is a single-page React app that teaches Java. This project models the logic inside its
components:

- **Shell** (`src/App.tsx`). A tab id decides which screen is shown.
- **Dashboard** (`src/components/Dashboard.tsx`). It keeps a list of four topics, an experience-point
  total and the selected topic. While a topic is selected, the lesson viewer replaces the overview.
  Completing a lesson marks its topic complete, adds 500 XP and returns to the overview.
- **Lesson viewer** (`src/components/LessonViewer.tsx`). It holds a fixed catalog of lessons keyed
  by topic id. Its state is a section cursor and a set of sections marked complete, and it shows a
  progress bar. Marking the last section complete hands the topic id back to the dashboard.
- **Mentor chat** (`src/components/Mentor.tsx`). A case-insensitive, first-match keyword
  dispatcher picks one canned answer per question. The transcript is append-only and guards
  against blank input. A send happens in two phases: the question is appended at once, the reply
  when the reply timer fires.
- **Coding challenge** (`src/components/CodingChallenge.tsx`). An editor starts with the starter
  code. A simulated run always reports the same three results. Hints are revealed one at a time,
  and a seconds counter is shown as `m:ss`.

## Structure

| file | module | contents |
|---|---|---|
| `wrappers.dfy` | `Wrappers` | `Option` |
| `text.dfy` | `Text` | the JavaScript string operations the components use: `toLowerCase` (ASCII), `includes`, `trim`, `toString` of a natural number, `padStart` |
| `lesson_viewer.dfy` | `Lessons` | the catalog, the progress bar, the `LessonViewer` class |
| `dashboard.dfy` | `Dashboard` | the topic list, its update and statistics, the `Board` class |
| `mentor.dfy` | `Mentor` | the dispatcher, the quick suggestions, the transcript invariant, the `MentorChat` class |
| `coding_challenge.dfy` | `Challenge` | `formatTime` and its inverse, the mock results, the `ChallengePanel` class |
| `app.dfy` | `App` | the tab dispatch and the `Shell` class |

Each component's `useState` fields become the fields of a class. Each handler that changes state becomes a
method with a `modifies` clause and a full description of the new state; the "Complete Lesson"
handler, which changes nothing, is `LessonViewer.FinishLesson`, a method without one. Each one-shot timer (`setTimeout`)
becomes two steps: one method starts it, a later method resolves it. The one-second interval
becomes a single `Tick` step per second. Expressions computed during rendering become
functions:

- the progress bar;
- the completed percentage;
- the visible hints;
- the clock label;
- the screen shown.

A `ghost predicate Valid()` on each component class (`LessonViewer`, `Board`, `MentorChat`,
`ChallengePanel`) is the invariant every method of that class requires and keeps. `App.Shell`
has none: its one field may hold any tab id, so there is nothing to keep. For example, the
mentor transcript stays "answered in order": each reply is the dispatcher's answer to its question,
and the questions still waiting are exactly the reply timers not yet fired.

The object-oriented lesson (topic `"1"`) has six sections: introduction, classes and objects,
encapsulation, inheritance, polymorphism, abstraction.

## Model

| member | source | states |
|---|---|---|
| Lessons.Lookup | src/components/LessonViewer.tsx:819-835 | a lesson is found exactly for the topic ids in the catalog; otherwise the result is `None`, the "Lesson Not Found" screen |
| Lessons.LookupFound | src/components/LessonViewer.tsx:49-817 | exactly the topic ids "1", "2" and "3" have a lesson |
| Lessons.CatalogWellFormed | src/components/LessonViewer.tsx:48-817 | each lesson's id equals its key, each has at least one section, and the section ids within a lesson are distinct |
| Lessons.SectionCounts | src/components/LessonViewer.tsx:48-817 | lesson "1" has six sections; lessons "2" and "3" have one each |
| Lessons.Progress | src/components/LessonViewer.tsx:838 | the bar's value `((current + 1) / count) * 100` on exact reals; its bounds and growth are stated by `ProgressBounds` and `ProgressIncreasing` |
| Lessons.ProgressBounds | src/components/LessonViewer.tsx:838 | the progress bar lies in (0, 100] and is 100 exactly on the last section |
| Lessons.ProgressIncreasing | src/components/LessonViewer.tsx:838 | a later section shows strictly more progress |
| Lessons.Round | src/components/LessonViewer.tsx:903 | `Math.round` gives the integer nearest to its argument, halves going up |
| Lessons.ProgressLabel | src/components/LessonViewer.tsx:903 | the rounded percentage label lies in 0..100 and is 100 on the last section |
| Lessons.LessonViewer.constructor | src/components/LessonViewer.tsx:45-47 | a viewer opens on section 0 with nothing marked, holding the lesson looked up for its topic id |
| Lessons.LessonViewer.OnLastSection | src/components/LessonViewer.tsx:842 | the cursor is on the last section, `currentSection === lesson.sections.length - 1`; `MarkComplete` fires the callback exactly then, and `FinishLesson` is offered only then |
| Lessons.LessonViewer.Count | src/components/LessonViewer.tsx:838 | the section count always exceeds the cursor |
| Lessons.LessonViewer.ShowsMarkComplete | src/components/LessonViewer.tsx:1041 | the "Mark Complete" button shows exactly while the current section is unmarked; `MarkComplete` ensures it is hidden afterwards |
| Lessons.LessonViewer.ProgressShown | src/components/LessonViewer.tsx:838-903 | the header percentage lies in 0..100 and shows 100 on the last section; the body computes it from `current` and `Count()` only |
| Lessons.LessonViewer.Next | src/components/LessonViewer.tsx:847-851 | the cursor moves forward by one unless on the last section, where it stays; the marked set is unchanged |
| Lessons.LessonViewer.Prev | src/components/LessonViewer.tsx:853-857 | the cursor moves back by one unless at 0, where it stays; the marked set is unchanged |
| Lessons.LessonViewer.JumpTo | src/components/LessonViewer.tsx:920-924 | a sidebar button moves the cursor to its section, always a valid index |
| Lessons.LessonViewer.MarkComplete | src/components/LessonViewer.tsx:840-845 | the current section joins the marked set, which stays within the valid indices, and its "Mark Complete" button disappears; the completion callback fires, with the topic id, exactly on the last section |
| Lessons.LessonViewer.FinishLesson | src/components/LessonViewer.tsx:1051-1067 | the "Complete Lesson" button on the last section hands the topic id back without marking |
| Lessons.ReadObjectOrientedLesson | src/components/LessonViewer.tsx:840-851 | marking and advancing through lesson "1" marks all six sections, and the callback fires with "1" |
| Dashboard.Ids | src/components/Dashboard.tsx:39-76 | the id list has one entry per topic, in order |
| Dashboard.CompleteTopic | src/components/Dashboard.tsx:113-117 | the topics with the given id become complete at 100%; all others, the length and the order are unchanged |
| Dashboard.CompleteTopicPreserves | src/components/Dashboard.tsx:113-117 | completion keeps the ids in order, keeps every percentage in range, and keeps completed topics at 100% |
| Dashboard.CompleteTopicIdempotent | src/components/Dashboard.tsx:113-117 | completing a topic twice rewrites the list as completing it once does |
| Dashboard.CompleteUnknownTopic | src/components/Dashboard.tsx:113-117 | an id carried by no topic leaves the list as it is |
| Dashboard.CompletedCount | src/components/Dashboard.tsx:302 | the completed count never exceeds the number of topics |
| Dashboard.CompletedCountExtremes | src/components/Dashboard.tsx:302 | the count is 0 exactly when no topic is completed, and equals the list length exactly when all are |
| Dashboard.CompletedCountCons | src/components/Dashboard.tsx:113-117 | the count after a completion splits into the first topic and the rest |
| Dashboard.CompletedCountAfterComplete | src/components/Dashboard.tsx:112-119 | completing a unique, not yet completed topic raises the count by one; an already completed topic leaves it unchanged |
| Dashboard.Fraction | src/components/Dashboard.tsx:181 | a part over a whole lies in [0, 1], and is 0 or 1 exactly at the two ends |
| Dashboard.CompletedPercent | src/components/Dashboard.tsx:181 | the "Completed" percentage is undefined (NaN) exactly for an empty list; otherwise it lies in 0..100, is 100 when all topics are completed and 0 when none is |
| Dashboard.FourTopicsPercent | src/components/Dashboard.tsx:181 | with four topics, each completed topic adds exactly 25 to the percentage |
| Dashboard.InitialTopicsFresh | src/components/Dashboard.tsx:39-76 | the initial list has ids "1" to "4", every percentage in range and no topic completed, so 0% shows |
| Dashboard.CompleteFirstTopic | src/components/Dashboard.tsx:112-119 | completing topic "1" on the initial list leaves one of four topics completed, shown as 25% |
| Dashboard.Board.constructor | src/components/Dashboard.tsx:36-76 | the dashboard starts with the four initial topics, 2840 XP and no selected topic |
| Dashboard.Board.Showing | src/components/Dashboard.tsx:132-140 | the lesson viewer is shown exactly while the selected topic is a non-empty string (JavaScript truthiness); otherwise the overview shows |
| Dashboard.Board.HandleTopicClick | src/components/Dashboard.tsx:104-106 | the clicked topic becomes selected; topics and XP are unchanged |
| Dashboard.Board.HandleBackToDashboard | src/components/Dashboard.tsx:108-110 | the selection is cleared; topics and XP are unchanged |
| Dashboard.Board.HandleLessonComplete | src/components/Dashboard.tsx:112-120 | the matching topics are completed, exactly 500 XP are added on every call, and the overview returns |
| Dashboard.MultithreadingHasNoLesson | src/components/Dashboard.tsx:67-75 | topic "4" has a card but no lesson, so opening it shows "Lesson Not Found" |
| Dashboard.CompleteObjectOrientedLesson | src/components/Dashboard.tsx:104-120 | opening topic "1" and finishing all its sections gives 3340 XP, one completed topic, 25%, and the overview again |
| Mentor.Classify | src/components/Mentor.tsx:71-166 | the branch the if/else chain takes for a lowercased question; `ClassifyByRules` proves it is the first matching rule of the ordered table |
| Mentor.KindOf | src/components/Mentor.tsx:69-166 | the type each branch assigns: encouragement exactly for the fallback, explanation exactly for the object-oriented, array and collection branches, suggestion otherwise |
| Mentor.Respond | src/components/Mentor.tsx:65-175 | a reply is always a mentor message; it is an encouragement exactly when it is the fallback, and the fallback quotes the question unchanged; canned answers carry their branch's type |
| Mentor.FirstMatch | src/components/Mentor.tsx:71-166 | the reference first-match dispatcher over a rule table; `FirstMatchSpec` characterises its result |
| Mentor.FirstMatchSpec | src/components/Mentor.tsx:71-166 | the rule table picks the earliest rule that fires, and falls back exactly when no rule fires |
| Mentor.ClassifyByRules | src/components/Mentor.tsx:71-166 | the if/else chain over the lowercased question equals first-match over the five rules in priority order: object/oop, array, collection, debug/error, best practice |
| Mentor.RespondIgnoresCase | src/components/Mentor.tsx:66 | questions with the same lowercase form get the same type, and the same answer unless quoted back |
| Mentor.ObjectOrientedAnyCase | src/components/Mentor.tsx:66-82 | a question containing "object" or "oop" in any letter case gets the object-oriented explanation |
| Mentor.QuickSuggestionsRoute | src/components/Mentor.tsx:35-166 | each of the five quick suggestions reaches the branch its label announces |
| Mentor.SuggestionsNotBlank | src/components/Mentor.tsx:35-44 | no quick suggestion is blank, so the blank guard never drops one |
| Mentor.AnsweredStartsWithQuestion | src/components/Mentor.tsx:43-62 | in a consistent transcript no reply comes first: `Answered` requires every prefix to hold at least as many questions as replies |
| Mentor.AnsweredAfterSend | src/components/Mentor.tsx:46-55 | appending a question keeps the transcript answered in order, with that question waiting last |
| Mentor.AnsweredAfterReply | src/components/Mentor.tsx:58-62 | appending the reply to the oldest waiting question keeps the transcript answered in order |
| Mentor.MentorChat.constructor | src/components/Mentor.tsx:23-33 | the transcript starts as the single encouraging greeting, with empty input and no typing indicator |
| Mentor.MentorChat.SetInput | src/components/Mentor.tsx:288 | typing replaces the input box's text and nothing else |
| Mentor.MentorChat.Send | src/components/Mentor.tsx:43-63 | blank text is a no-op; otherwise exactly one user message with the untrimmed text is appended, the input is cleared, the typing indicator is set and a reply waits |
| Mentor.MentorChat.SendInput | src/components/Mentor.tsx:289-295 | Enter and the send button send the input box's text, under the same contract |
| Mentor.MentorChat.SendSuggestion | src/components/Mentor.tsx:186-188 | a quick suggestion is always appended and always starts a reply |
| Mentor.MentorChat.ResolveReply | src/components/Mentor.tsx:58-62 | the oldest reply timer appends the dispatcher's answer to its question and clears the typing indicator; earlier messages are kept |
| Challenge.FormatTime | src/components/CodingChallenge.tsx:83-87 | `formatTime` as written; `FormatTimeRoundTrip`, `FormatTimeInjective`, `FormatTimeLength` and `FormatTimeShort` state what it shows |
| Challenge.ClockSeconds | src/components/CodingChallenge.tsx:83-87 | the inverse of the label: digits, a colon and two digits below 60 read as minutes·60 + seconds; anything else is rejected |
| Challenge.FormatTimeRoundTrip | src/components/CodingChallenge.tsx:83-87 | reading the label back as canonical `m:ss` (digits, a colon, two digits below 60) gives exactly the elapsed seconds |
| Challenge.LabelRoundTrip | src/components/CodingChallenge.tsx:83-87 | minutes and a second count below 60, printed as minutes, a colon and two padded digits, read back as minutes·60 + seconds |
| Challenge.SecondsDigits | src/components/CodingChallenge.tsx:86 | the seconds, padded with '0', are exactly two digits |
| Challenge.SecondsValue | src/components/CodingChallenge.tsx:86 | the two padded digits denote the seconds |
| Challenge.FormatTimeInjective | src/components/CodingChallenge.tsx:83-87 | different elapsed times never share a label |
| Challenge.FormatTimeLength | src/components/CodingChallenge.tsx:83-87 | the label is the minute numeral plus three characters |
| Challenge.FormatTimeShort | src/components/CodingChallenge.tsx:83-87 | the label has four characters exactly while under ten minutes have passed |
| Challenge.AllPassed | src/components/CodingChallenge.tsx:263 | `testResults.every(result => result)`; `PassedCount` and `MockRunFails` state that the mock results fail it |
| Challenge.PassedCount | src/components/CodingChallenge.tsx:243-263 | a helper the source does not compute, used by `MockRunFails`: the number of passed tests is at most the number of results, and equals it exactly when `every` holds |
| Challenge.MockRunFails | src/components/CodingChallenge.tsx:48-97 | the mock run reports one result per test case (three), two of them passes, so not all pass |
| Challenge.ChallengePanel.constructor | src/components/CodingChallenge.tsx:30-74 | once mounted, the editor holds the starter code, with no results, hints hidden at the first hint, and the clock at zero |
| Challenge.ChallengePanel.EditCode | src/components/CodingChallenge.tsx:234 | editing replaces the code and nothing else |
| Challenge.ChallengePanel.BeginRun | src/components/CodingChallenge.tsx:89-90 | a run can start only when none is in flight, and it sets the running flag |
| Challenge.ChallengePanel.ResolveRun | src/components/CodingChallenge.tsx:92-99 | the results become [pass, pass, fail] whatever the code, and the running flag is cleared |
| Challenge.ChallengePanel.Reset | src/components/CodingChallenge.tsx:110-113 | the starter code returns and the results are cleared; timer and hint state are unchanged |
| Challenge.ChallengePanel.ToggleHints | src/components/CodingChallenge.tsx:162 | the hint panel flips between shown and hidden; the revealed count is kept |
| Challenge.ChallengePanel.NextHint | src/components/CodingChallenge.tsx:176-183 | one more hint is revealed, only while some remain hidden, so the index stays below the hint count |
| Challenge.ChallengePanel.Tick | src/components/CodingChallenge.tsx:76-81 | each tick adds exactly one second |
| Challenge.ChallengePanel.VisibleHints | src/components/CodingChallenge.tsx:170-171 | while shown, the panel lists the first `currentHint + 1` hints, at least one and never more than exist; hidden, none |
| Challenge.ChallengePanel.Clock | src/components/CodingChallenge.tsx:198 | the clock beside the editor reads back as exactly `timeSpent` |
| Challenge.ChallengePanel.ShowsResults | src/components/CodingChallenge.tsx:243 | `testResults.length > 0`, which also guards the per-example marks at :136; `TestMark` states that a mark shows exactly when it holds |
| Challenge.ChallengePanel.TestMark | src/components/CodingChallenge.tsx:132-137 | a test case carries a mark exactly once results exist; the first two pass and the third fails |
| Challenge.ChallengePanel.ShowsCongratulations | src/components/CodingChallenge.tsx:243-263 | the banner shows when results exist and every one passed; `NeverCongratulated` proves that never happens |
| Challenge.NeverCongratulated | src/components/CodingChallenge.tsx:243-263 | in every reachable state the "all tests passed" banner is hidden |
| App.Render | src/App.tsx:10-38 | `renderActiveComponent`'s switch; `RenderTabOf`, `NavTabsDistinct`, `UnknownTabShowsDashboard` and `RenderInverse` state which screen each tab id shows |
| App.TabOf | src/App.tsx:10-38 | every screen is reached from one of the navigation bar's tab ids |
| App.RenderTabOf | src/App.tsx:10-38 | rendering the tab of a screen shows that screen |
| App.NavTabsDistinct | src/App.tsx:10-38 | the five tabs show five different screens |
| App.UnknownTabShowsDashboard | src/App.tsx:36-37 | any tab id the bar does not offer falls back to the dashboard |
| App.RenderInverse | src/App.tsx:10-38 | every screen but the dashboard is reached from exactly one tab id |
| App.Shell.constructor | src/App.tsx:8 | the app opens on the dashboard tab |
| App.Shell.Showing | src/App.tsx:45 | the `renderActiveComponent()` call: the screen for the active tab; `SetActiveTab` and the constructor state what it is after each change |
| App.Shell.SetActiveTab | src/App.tsx:43 | a tab change replaces the active tab unconditionally, and the screen follows it |
| App.OpenMentor | src/App.tsx:15-16 | choosing the mentor tab shows the mentor chat |
| Text.Lower | src/components/Mentor.tsx:66 | `toLowerCase` maps each character through ASCII lowercasing and keeps the length |
| Text.Includes | src/components/Mentor.tsx:71-133 | `includes` as a scan from the left; `IncludesIff` ties it to the occurrence definition |
| Text.IncludesIff | src/components/Mentor.tsx:71-133 | `includes` holds exactly when the pattern occurs at some position |
| Text.IncludesLower | src/components/Mentor.tsx:66-71 | an occurrence in a text is also an occurrence in its lowercase form |
| Text.Trim | src/components/Mentor.tsx:44 | `trim()` as leading then trailing whitespace removal; `TrimInfix` and `TrimEmptyIff` state its result |
| Text.TrimInfix | src/components/Mentor.tsx:44 | `trim()` returns an infix of its argument with only whitespace cut on both sides, and neither starts nor ends with whitespace |
| Text.TrimEmptyIff | src/components/Mentor.tsx:44 | `trim()` gives the empty string, JavaScript's only falsy string, exactly for text made only of white space |
| Text.Decimal | src/components/CodingChallenge.tsx:84-86 | `toString` of a natural number: at least one digit, no leading zero, one digit exactly below 10; `DecimalRoundTrip` proves it reads back as the number |
| Text.DecimalRoundTrip | src/components/CodingChallenge.tsx:86 | reading back the decimal numeral of a number gives the number |
| Text.PadStart | src/components/CodingChallenge.tsx:86 | `padStart` keeps the text as the suffix, preceded by as many fill characters as reach the width |

## Left out

- Rendering, CSS classes, icons, `getDifficultyColor`, and the navigation bar's own mobile-menu
  toggle are presentation and are not modelled. The navigation bar enters the model only as the
  tab ids it reports.
- Timers (`setTimeout`, `setInterval`, `async`/`await`) become explicit steps:
  - `MentorChat.Send` followed by `ResolveReply`;
  - `ChallengePanel.BeginRun` followed by `ResolveRun`;
  - `ChallengePanel.Tick`.

  Real delays and clearing the interval on unmount are not modelled.
- Message ids, timestamps, `Date` and locale formatting are not modelled. Messages carry only
  their content, their sender and their type.
- The canned answer texts, lesson prose, code examples, key points, objectives and topic
  descriptions are named rather than spelled out. The Java-fence regular expression used to
  display mentor answers is display-only.
- The fixed level, streak, achievements and "This Week" figures on the dashboard hold no logic.
- The `type` tag of each quick suggestion is never read by the app.
- Mentor.MentorChat.ResolveReply: when several questions are waiting, the first reply clears the
  typing indicator as the app does, while the other replies are still pending.
- Text.Lower: JavaScript's `toLowerCase` is full Unicode; the model lowercases ASCII letters only.
- JavaScript strings are sequences of UTF-16 code units; the model's strings are sequences of
  characters. For `trim`, `includes` and ASCII lowercasing on well-formed strings the results
  agree.
- Lessons.Lookup: the model's catalog is a map. In JavaScript, `lessons[topicId]` would also find
  inherited object properties such as `"constructor"`; such ids are not modelled.
- The lesson viewer is given a topic id for which the catalog has a lesson; its handlers exist only
  on the lesson screen. The not-found screen is `Lookup` returning `None`.
- Dashboard.CompletedPercent: rounding is modelled on exact reals, not IEEE doubles. The model does
  not claim that 0% or 100% shows only at the ends: with more than 200 topics a single completed
  topic rounds to 0%.
- Lessons.ProgressBounds: the bar is computed on exact reals, not IEEE doubles.
- Challenge.ChallengePanel.constructor: the starter code is loaded by an effect right after the
  panel mounts; the model starts from that state, not from the empty editor of the first render.
- Switching tabs in the shell unmounts the previous screen, so its state (the XP total, the chat
  transcript, the clock) starts afresh when the tab is opened again. `App.Shell` keeps only the
  active tab; the component models each start from their constructors.
- JavaScript numbers are doubles; the counters (XP, seconds) are modelled as unbounded integers,
  which is exact below 2^53.
