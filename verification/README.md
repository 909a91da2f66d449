# dual-ai-coach, modelled in Dafny

dual-ai-coach helps learners build a blockchain portfolio project. It has three parts:

- A setup page proposes a project plan: a title, a description, six milestones, learning goals and skills. The page throttles how often a new plan may be requested.
- A dashboard and an export page track the milestones. From them they derive:
  - a progress percentage;
  - an automatic move to the export page;
  - README and LinkedIn drafts that weave in the learner's stored reflections.
- A chat page talks to two coach personas (engineer, life coach). Each message carries a project context built from what the browser has stored.

Two serverless handlers stand behind the pages:

- `api/plan.js` generates plans. It falls back to three built-in plans when no API key is set.
- `api/chat.js` wraps the conversation in the persona's system prompt.

The model covers the logic of these pages and handlers. It does not model rendering or I/O.

| module | models |
|---|---|
| `Text` | optional values with JavaScript truthiness, `join`, decimal rendering of naturals, `trim` |
| `Json` | JSON values, truthiness, property lookup, object spread |
| `Progress` | milestones, filtering by `complete`, the stored reflection keys, the rounded percentage, the first open milestone |
| `Catalog` | plans, the three built-in plans, plans as JSON |
| `Dashboard` | the dashboard's figures, auto-export, README and LinkedIn drafts |
| `Export` | the export payload and its README and LinkedIn drafts |
| `ProjectSetup` | the refresh throttle, plan adoption, the refresh button, whole sessions of clicks |
| `Http` | what both handlers share: request and response, the completion call's outcome, method dispatch |
| `PlanApi` | the plan handler: defaults, offline plans, prompts, normalisation of the answer |
| `ChatApi` | the chat handler: validation, persona prompts, the reply |
| `ChatSession` | the chat box of the chat page, `ChatWindow` and `App` |
| `ChatContext` | the project context the chat page sends |
| `ProgressBar` | the bar's clamped width and `App`'s progress figure |

Inputs the code reads from outside are parameters of the model:

- local storage is a `map<string, string>`;
- `Date.now()` is a time stamp;
- `Math.random()` is a real in `[0, 1)`;
- the completion call's outcome is an `Upstream` value;
- `JSON.parse`, `JSON.stringify` and `toLowerCase` are function parameters;
- `sendChat` and `generateProject` answers are events.

`Math.round(done / total * 100)` is modelled over exact rationals, as `(200·done + total) div (2·total)`. Its contract pins the result down: `2·total·p − total ≤ 200·done < 2·total·p + total`. JavaScript evaluates it in floating point, which differs at some halves (see Left out).

`milestones.indexOf(m)` is the milestone's position in the list. Each parsed milestone is a distinct object, so that holds for the lists the pages read.

The drafts are fixed template literals, and the refresh throttle lives only in the setup page's state: the handlers keep no request counts.

The chat handler's prompt table is keyed `engineer` and `lifecoach`, while the chat page's tabs send `engineer` and `life` (see Findings).

## Model

| member | source | states |
|---|---|---|
| Text.JoinPieceAt | frontend/src/pages/Export.tsx:61 | in `xs.join(sep)` each piece starts after the pieces before it and one `sep` each, and is followed by `sep` unless it is the last |
| Text.JoinEmptyIff | frontend/src/pages/Export.tsx:51 | with non-empty pieces, a joined list is empty exactly when the list is |
| Text.DigitsValueOfNatToString | frontend/src/pages/Export.tsx:68 | the decimal text of a count reads back as the same count (round trip) |
| Text.NatToStringInjective | frontend/src/pages/Export.tsx:56 | different indices give different `reflection-<i>` key suffixes |
| Text.TrimEmptyIff | frontend/src/pages/Chat.tsx:12 | `input.trim()` is empty exactly when the input is all white space |
| Text.TrimIdempotent | frontend/src/pages/Chat.tsx:13 | a trimmed message has no white space at either end and trims to itself |
| Json.Spread | frontend/api/plan.js:181 | `{...v}` copies an object's fields, an array's elements or a string's characters under their decimal indices and holds no other keys, and copies nothing from null, booleans or numbers |
| Json.MessageInjective | frontend/api/chat.js:86 | two chat messages from one role are equal exactly when their contents are |
| Progress.IndicesBelow | frontend/src/pages/Export.tsx:54-61 | the selected positions are in range, strictly increasing, and include every position the selector picks |
| Progress.CompletedIsFilter | frontend/src/pages/Export.tsx:34 | the done and the open milestones are exactly the order-preserving `filter(m => m.complete)` and `filter(m => !m.complete)` of the list |
| Progress.Partition | frontend/src/pages/Dashboard.tsx:93 | every milestone is in exactly one of the done and open lists, by its `complete` flag, and the two lists together are as long as the list |
| Progress.AllDoneIff | frontend/src/pages/Dashboard.tsx:72 | `done === total` holds exactly when every milestone is complete |
| Progress.NoneDoneIff | frontend/src/pages/Dashboard.tsx:14 | `done` is 0 exactly when no milestone is complete |
| Progress.RoundedPercent | frontend/src/pages/Dashboard.tsx:15 | the percentage is the integer nearest to 100·done/total, halves up, 0 for an empty list, within 0..100 |
| Progress.RoundIsUnique | frontend/src/pages/Dashboard.tsx:15 | at most one integer lies within half a unit of the fraction, so the rounding bounds determine `Math.round` |
| Progress.RoundedPercentMonotone | frontend/src/pages/Dashboard.tsx:15 | completing more milestones never lowers the percentage |
| Progress.PercentEndpoints | frontend/src/pages/Export.tsx:36 | all done gives 100 and none done gives 0 |
| Progress.FullPercentWithOpenMilestone | frontend/src/pages/Chat.tsx:51 | 100% can show while a milestone is still open (199 of 200) |
| Progress.FirstIncomplete | frontend/src/pages/Chat.tsx:65 | `find(m => !m.complete)` returns the first open milestone, or none when all are done |
| Progress.FirstIncompleteIsFirstRemaining | frontend/src/pages/Chat.tsx:65 | the first open milestone heads the list of open milestones |
| Catalog.MockProject | frontend/api/plan.js:24-100 | each offline plan has a title, a description and six milestones, none of them done |
| Catalog.MilestoneJsonRoundTrip | frontend/api/plan.js:106 | a milestone written as JSON reads back as itself |
| Dashboard.ShouldAutoExport | frontend/src/pages/Dashboard.tsx:71-78 | the page moves on to the export page exactly when there are milestones and all are complete |
| Dashboard.AutoExportIsNotFullPercent | frontend/src/pages/Dashboard.tsx:72 | the move follows the counts, not the percentage: 100% can show without the move |
| Dashboard.ReadmeText | frontend/src/pages/Dashboard.tsx:83 | the README draft opens with the title and overview, or `My Project` and `A learning project` when they are missing or empty, and closes with one line per milestone and the fixed next-steps line |
| Dashboard.CheckedLinesCountDone | frontend/src/pages/Dashboard.tsx:83 | each milestone line carries the done marker exactly when that milestone is complete, so `done` lines carry it |
| Dashboard.LinkedInText | frontend/src/pages/Dashboard.tsx:93 | the LinkedIn draft opens with the percentage and the title (or `project`), continues with the built list, and closes with the still-working list and the hashtags |
| Dashboard.LinkedInListsPartition | frontend/src/pages/Dashboard.tsx:93 | the built and still-working lists name the done and the open milestones, each in list order, one line per milestone in total |
| Export.MakePayload | frontend/src/pages/Export.tsx:33-45 | the completed list is the order-preserving filter, the progress is the rounded percentage, and a missing project is replaced by the fixed one |
| Export.RemainingSection | frontend/src/pages/Export.tsx:51-73 | the Remaining Milestones section appears exactly when some milestone is still open |
| Export.ReflectionsFromCompletedOnly | frontend/src/pages/Export.tsx:54-61 | the reflection entries are exactly the completed milestones with a non-empty stored reflection under their own index, in list order |
| Export.LearnedSection | frontend/src/pages/Export.tsx:76 | the What I Learned section is the reflections when there is one, otherwise the three fixed lines |
| Export.ReadmeText | frontend/src/pages/Export.tsx:63-90 | the README draft opens with the project heading (the fixed project when none is stored); after the description, progress and completed blocks and four blank lines come the remaining-milestones section, a blank line and the `## What I Learned` section |
| Export.Render | frontend/src/pages/Export.tsx:63-90 | the template's nine blocks joined by blank lines: the text opens with the heading, and the remaining and learned blocks sit after the four blocks before them |
| Export.LearnedBullets | frontend/src/pages/Export.tsx:100-107 | the learned-bullet list has one bullet for each of the first three completed milestones (fewer when fewer are done), in list order: the reflection, or `Completed <title>` |
| Export.LearnedBulletsAreFirstCompleted | frontend/src/pages/Export.tsx:100 | no completed milestone before a bulleted one is skipped |
| Export.LinkedInText | frontend/src/pages/Export.tsx:99-114 | the LinkedIn draft fails exactly when the stored project has no title (`toLowerCase` of `undefined`); otherwise it opens with `I just finished building <lower-cased title>! 🚀`, then carries the `Completed <done>/<total> milestones (<percent>% done).` line, and closes with `Here's what I learned:`, the learned bullets joined by newlines, and the fixed closing text |
| ProjectSetup.Adopt | frontend/src/pages/ProjectSetup.tsx:78-85 | a generated plan replaces the shown one only with a title, a description and milestones, with default goals and skills filling in |
| ProjectSetup.LoadNewProject | frontend/src/pages/ProjectSetup.tsx:52-98 | a throttled click changes nothing; an accepted click records its time, counts itself and starts the 10 s countdown; a load with `isUserInitiated` false leaves the counters alone (the page's two call sites, lines 160 and 206, both pass `true`) |
| ProjectSetup.CountersIgnoreResult | frontend/src/pages/ProjectSetup.tsx:69-73 | the throttle's bookkeeping is done before, and independent of, the generation's result |
| ProjectSetup.Tick | frontend/src/pages/ProjectSetup.tsx:43-50 | a timer tick lowers a positive countdown by one and changes nothing else |
| ProjectSetup.RefreshLabel | frontend/src/pages/ProjectSetup.tsx:214-217 | loading wins over the limit, the limit over the countdown |
| ProjectSetup.LabelText | frontend/src/pages/ProjectSetup.tsx:214-217 | the caption starts with the hourglass exactly during the countdown |
| ProjectSetup.LabelTextInjective | frontend/src/pages/ProjectSetup.tsx:214-217 | distinct button states show distinct captions; the countdown caption shows its exact number of seconds |
| ProjectSetup.LabelShowsEnabled | frontend/src/pages/ProjectSetup.tsx:207 | the button offers a new project exactly when it is enabled |
| ProjectSetup.RefreshHint | frontend/src/pages/ProjectSetup.tsx:208-212 | the tooltip names the limit at 10 refreshes, else the seconds left while counting down, else offers a new project |
| ProjectSetup.HintShowsEnabled | frontend/src/pages/ProjectSetup.tsx:207-212 | outside a load, the tooltip offers a new project exactly when the button is enabled |
| ProjectSetup.SessionThrottle | frontend/src/pages/ProjectSetup.tsx:56-72 | over any sequence of clicks, automatic loads and ticks: accepted clicks are at least 10 000 ms apart and at most 10 − count, and the countdown stays within 0..10 |
| ProjectSetup.AtMostTenRefreshes | frontend/src/pages/ProjectSetup.tsx:62 | from the initial page no session gets more than 10 refreshes through |
| Http.Dispatch | frontend/api/plan.js:10-17 | `OPTIONS` gets a bare 200, any method but `POST` a 405, and only `POST` goes on |
| PlanApi.WithDefaults | frontend/api/plan.js:20 | missing body fields take the defaults `''`, `beginner`, `''`, `false`; present ones are kept |
| PlanApi.MockIndex | frontend/api/plan.js:102 | the random pick is a valid index into the offline plans |
| PlanApi.UniquenessIff | frontend/api/plan.js:149 | the prompt ends with the uniqueness request exactly when a new plan was asked for |
| PlanApi.UserPromptInjective | frontend/api/plan.js:149 | for one experience level, different goals or flags give different prompts |
| PlanApi.ForceOpenReopens | frontend/api/plan.js:181 | a generated milestone comes back unchanged except that it is not done |
| PlanApi.NormaliseMilestones | frontend/api/plan.js:175-186 | answers whose milestones are an array get every milestone forced open and all other fields kept; a null answer or truthy non-array milestones fail; falsy or absent milestones leave the answer as it is |
| PlanApi.NormalisedMilestonesOpen | frontend/api/plan.js:180-182 | every milestone the handler returns from a generated plan is marked not done |
| PlanApi.Answer | frontend/api/plan.js:167-198 | a thrown or non-ok completion call gives the catch-all's 500 `AI service error` with `hasApiKey`; content that does not parse, or has truthy non-array milestones, gives 500 `Invalid response format`; otherwise 200 with the normalised answer, whose milestones are all not done |
| PlanApi.Handle | frontend/api/plan.js:3-200 | no body gives the catch-all's 500 and no upstream call; no key gives 200 with the fresh offline plan at index ⌊3·random⌋ (`MockIndex`) and no upstream call; with a key, the system and user prompts are sent and the answer is `Answer`'s |
| PlanApi.PlansStartOpen | frontend/api/plan.js:102-186 | every plan a `POST` is answered with, offline or generated, lists its milestones as not done |
| PlanApi.BadFormatAnswers | frontend/api/plan.js:175-186 | with a key, an answer that does not parse, or has truthy non-array milestones, gives 500 `Invalid response format` |
| PlanApi.UpstreamFailureIs500 | frontend/api/plan.js:168-198 | with a key, a failed or non-ok completion call gives 500 `AI service error` |
| ChatApi.PersonaOfAsWritten | frontend/api/chat.js:75 | as written, only the key `lifecoach` selects the life coach; anything else, or nothing, selects the engineer |
| ChatApi.PersonaOf | frontend/api/chat.js:75 | the corrected lookup: `lifecoach` or `life` selects the life coach, and it agrees with the original wherever the original picks the life coach |
| ChatApi.ContextRecoverable | frontend/api/chat.js:40 | the project context's JSON sits unaltered between the persona prompt's fixed head and tail |
| ChatApi.SystemPromptInjective | frontend/api/chat.js:62 | different contexts give different system prompts |
| ChatApi.PersonasDiffer | frontend/api/chat.js:27-73 | the two personas never give the same prompt for one context |
| ChatApi.ReplyText | frontend/api/chat.js:101 | the reply is the completion's non-empty content, else the fixed apology, and it is never empty |
| ChatApi.Answer | frontend/api/chat.js:94-109 | an ok completion answers 200 `{ text }`; a failed or non-ok one answers 500 with the error message |
| ChatApi.Handle | frontend/api/chat.js:3-111 | without a message array nothing is sent and the answer is 400; otherwise the system prompt of the persona the table as written selects goes first, followed by the client's messages unchanged, and the answer is `Answer`'s |
| ChatApi.LifeRequestGetsEngineerPrompt | frontend/api/chat.js:75 | a request with `persona: "life"` is sent behind the engineer's prompt, never the life coach's |
| ChatApi.HandleCorrected | frontend/api/chat.js:75-92 | with the corrected persona lookup the handler answers exactly as written and sends the same client messages; only the system prompt's persona changes |
| ChatApi.CorrectedLifeRequestGetsLifeCoachPrompt | frontend/api/chat.js:75 | with the corrected lookup, a `persona: "life"` request gets the life coach's prompt, unlike the handler as written |
| ChatApi.SuccessHasText | frontend/api/chat.js:103 | a successful call always answers with non-empty text |
| ChatSession.Send | frontend/src/pages/Chat.tsx:11-16 | a blank input or a pending reply sends nothing; otherwise the trimmed message is appended and the whole conversation is sent |
| ChatSession.Receive | frontend/src/components/ChatWindow.tsx:18-19 | the reply is appended as the assistant's message only when it has text; loading ends either way |
| ChatSession.ReceiveInApp | frontend/src/App.tsx:33-34 | the App shows `text`, else `error`, else nothing, and never extends the transcript |
| ChatSession.TranscriptGrows | frontend/src/pages/Chat.tsx:11-71 | over any sequence of typing, sends and replies, earlier messages are never changed or dropped, no message is empty, and every user message is trimmed |
| ChatSession.AppTranscriptIsUserOnly | frontend/src/App.tsx:26-35 | the App's transcript holds only user messages |
| ChatSession.NoDoubleSend | frontend/src/pages/Chat.tsx:12 | a second send while a reply is pending sends nothing |
| ChatSession.LifeTabGetsEngineerAsWritten | frontend/src/pages/Chat.tsx:118 | as written, the Life Coach tab's persona name reaches the engineer prompt |
| ChatSession.TabsReachTheirPersona | frontend/src/pages/Chat.tsx:107-118 | with the corrected lookup each tab reaches its own coach, and the two tabs differ |
| ChatContext.ReflectionNotes | frontend/src/pages/Chat.tsx:35-43 | one note per completed milestone with a non-empty stored reflection under its own index, in list order |
| ChatContext.Load | frontend/src/pages/Chat.tsx:19-47 | a stored project that fails to parse leaves the default project, no milestones and the reflections at their initial `{}`; otherwise the parsed project is taken; absent milestones give an empty list and an empty list of notes, unparseable ones an empty list with the reflections left at `{}`, and parsed ones are taken as stored with one note per reflected completed milestone |
| ChatContext.CurrentMilestone | frontend/src/pages/Chat.tsx:65 | the current milestone is the first open one's title, or `All complete!` when all are done or when the first open one's title is empty |
| ChatContext.Enhanced | frontend/src/pages/Chat.tsx:54-66 | the added fields override the stored project's, and the project's other fields are kept |
| ChatContext.ContextFigures | frontend/src/pages/Chat.tsx:49-51 | the counts and percentage sent are the loaded list's, 100 when all are done, 0 when none is |
| ChatContext.UnparseableProjectHidesMilestones | frontend/src/pages/Chat.tsx:23-47 | an unparseable stored project also hides the stored milestones and reflections from the coach |
| ChatContext.AllCompleteIsNotAllDone | frontend/src/pages/Chat.tsx:65 | `All complete!` is also sent for an empty list and for an open milestone without a title |
| ProgressBar.Width | frontend/src/components/ProgressBar.tsx:2 | the width is the rounded percentage clamped to 0..100 |
| ProgressBar.WholePercentUnchanged | frontend/src/components/ProgressBar.tsx:2 | an integer percentage within 0..100 is drawn as given |
| ProgressBar.WidthClamps | frontend/src/components/ProgressBar.tsx:2 | non-positive inputs give an empty bar and inputs of 100 or more a full one |
| ProgressBar.WidthMonotone | frontend/src/components/ProgressBar.tsx:2 | a larger input never gives a narrower bar |
| ProgressBar.AppProgress | frontend/src/App.tsx:15-24 | the App's figure is the rounded share of done milestones, 0 without a list |
| ProgressBar.AppBarMatchesFigure | frontend/src/App.tsx:53-54 | the bar under the App's figure is exactly as wide as the figure says |

## Left out

- Rendering, navigation, toasts, the clipboard, timers and `setTimeout` delays are left out. The model keeps the state these act on and the texts they carry. The countdown timer is an explicit tick event.
- Reading and writing local storage is left out beyond the values the pages read. This covers the dashboard's 1-second polling, the `storage` listener, and the writes in `loadNewProject` and `handleGeneratePlan`.
- `handleGeneratePlan` is left out: it only stores the shown plan with fixed extra fields and navigates.
- CORS headers, `console` logging, the fetch URLs, the model name, `temperature`, `max_tokens` and `response_format` are left out. They do not change what the handlers answer.
- The `stack` field of the plan handler's 500 body is left out; it is runtime-specific text.
- The `detail` for a missing request body is left out. It is the runtime's `TypeError` message, so the body is modelled without it.
- `JSON.parse`, `JSON.stringify`, `toLowerCase` and the completion call are parameters, so their own behaviour is not modelled.
- JSON numbers are integers. Floating point is not modelled.
- The progress bar's input is an exact fraction. `NaN` and infinities are not modelled.
- Stored milestones are typed records. A stored list that parses to something other than an array of milestone objects is not modelled. In the chat page, such a list would throw outside the `try` and leave the box loading.
- Request-body fields of the wrong JSON type are not modelled: a `null` persona, or a non-string goal or experience.
- A persona that names an `Object.prototype` property, such as `constructor`, is not modelled. The JavaScript lookup would return a function there rather than fall back.
- `Json.Spread` of a string yields one entry per `char`. For characters outside the Basic Multilingual Plane, JavaScript's spread yields UTF-16 code units instead.
- The client library `lib/api.ts`, including its localhost mock answers, is not part of this model. The answers of `sendChat` and `generateProject` are inputs.
- ProjectSetup.LoadNewProject: the asynchronous load (`frontend/src/pages/ProjectSetup.tsx:67-97`) is one atomic step. The state in which `loading` is true while `generateProject` is awaited is not modelled, so a session never shows the `Generating` label. Both buttons are disabled during that wait, so the throttle is not affected.
- Progress.RoundedPercent: rounds the exact fraction, while `Math.round(done / total * 100)` rounds a double. Where the exact value is a half, the double can fall just below it: 23 of 40 gives 57 in JavaScript and 58 here, and 29 of 200 gives 14 there and 15 here. The same difference reaches ProgressBar.AppProgress, Export.MakePayload, ChatContext.ContextFigures and the drafts' percentages.

## Findings

| source | as written | input that shows it | evidently intended | confidence | as-written member | corrected member |
|---|---|---|---|---|---|---|
| frontend/api/chat.js:75 | the prompt table is keyed `engineer` and `lifecoach`, but the chat page's Life Coach tab sends `persona: 'life'`, which falls back to the engineer prompt | a chat request with `persona: "life"` (the Life Coach tab) | the Life Coach tab gets the life coach's system prompt | high, not executed | ChatApi.Handle | ChatApi.HandleCorrected |
