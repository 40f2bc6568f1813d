# MathPech in Dafny

A model of the logic of MathPech, which is a French mathematics-learning web
application. Its parts:

- **The math renderer.** It splits free text into literal characters and
  `$$…$$` / `$…$` spans. It hands each span to a typesetter, and falls back
  to showing the raw text when typesetting fails.
- **The application shell.** It holds one profile, mirrored in local
  storage. The profile is loaded at start-up and brought up to date there
  by the daily streak rule. The login, level, experience and logout
  handlers replace it.
- **The exercise session.** Answers are judged by whitespace- and
  case-insensitive equality, 50 points are given per correct answer, a
  wrong answer is explained by the AI tutor, and the score is reported once
  at the end.
- **The lesson page.** It has a whiteboard that reveals the lesson as the
  narration progresses, exercise counts per tier, and a one-question quiz.
- **The tutor chat.** It has a message log that only grows, a send that
  waits for the tutor, and a photo scan that posts a hint with formulas.
- **The course library.** It has the category buttons and the search,
  category and level filters.
- **The dashboard.** It shows the strengths chart, the lycée switch, the
  streak label, and the first three lessons recommended for the student's
  level.
- **The service layer around the generative-AI calls.** This covers request
  contents, text fallbacks, the scan's JSON handling and the audio lookup.
- **The record types and the static lesson and exercise tables.**

Each source file is one module (`math_renderer.dfy`, `app.dfy`,
`exercise_session.dfy`, `lesson_detail.dfy`, `ai_lab.dfy`, `courses.dfy`,
`dashboard.dfy`, `gemini_service.dfy`, `types.dfy`, `constants.dfy`). Three
helper modules back them:

- `outcomes.dfy`: `Option`, and `Call` (a result or a throw);
- `text.dfy`: white space, lower case, split and join;
- `collections.dfy`: `filter`, first match, and `Array.from(new Set(…))`.

These are modelled as inputs:

- The KaTeX typesetter is a function parameter. It returns the markup, or
  nothing when it throws.
- Every awaited AI call is split in two: the synchronous part of the
  handler is one method, and the continuation is another that takes the
  call's outcome as a `Call` value.
- Clocks (`Date.now()`, "today") are integer parameters. Days are integer
  day numbers.
- `JSON.parse` of the scan answer is a function parameter.

Components whose fields the handlers update are classes: `AppState`,
`Session`, `QuickQuiz`, `TutorChat`, `CourseBrowser` and `MathView`.

- Each UI event is a total method. It does nothing when its control is not
  on screen.
- `requests` and `completions` fields record every outbound call and every
  `onComplete` call, in order.

The model follows the code as written, including these behaviours a reader
may not expect:

- **Login always creates a fresh profile.** There is no per-identity record
  and no reload of an existing account (App.tsx:62-78).
- **A corrupt stored profile crashes start-up.** `JSON.parse` throws in the
  state initialiser, and the model records this as `crashed`
  (App.tsx:17-20).
- **Start-up always writes the profile back.** The persist effect runs once
  at start-up whenever a profile was loaded, even when the streak rule
  changes nothing (App.tsx:24-28).
- **The Enter key submits whatever was typed.** It submits blank answers too,
  and even while an explanation is loading. Only the button checks
  (pages/ExerciseSession.tsx:126-129, 191-199).
- **A failed quiz explanation is not caught.** When the call throws, the
  "explaining" flag stays set (pages/LessonDetail.tsx:103-105).
- **The declared profile type is missing two fields.** `UserProfile` in
  types.ts lacks `streak` and `lastActiveDate`, which the application reads
  and writes; the model has both fields.

## Model

| member | source | states |
|---|---|---|
| Text.StripWhitespace | pages/ExerciseSession.tsx:44-45 | `replace(/\s/g, '')`: the result has no white space and keeps every other character in order |
| Text.LowerChar | pages/ExerciseSession.tsx:45 | lower-casing one character keeps it a white-space character exactly when it was one |
| Text.Lower | pages/ExerciseSession.tsx:44-45 | `toLowerCase`: same length, each character lower-cased (ASCII and Latin-1 capitals) |
| Text.Normalize | pages/ExerciseSession.tsx:44-45 | the normal form is free of white space and capitals |
| Text.NormalizeIdempotent | pages/ExerciseSession.tsx:44-45 | normalising twice is normalising once |
| Text.NormalizeIgnoresCase | pages/ExerciseSession.tsx:44-45 | lower-casing first does not change the normal form |
| Text.NormalizeIgnoresWhitespace | pages/ExerciseSession.tsx:44-45 | inserting a white-space character anywhere does not change the normal form |
| Text.StripConcat | pages/ExerciseSession.tsx:44 | deleting white space distributes over concatenation |
| Text.StripKeepsClean | pages/ExerciseSession.tsx:44 | text without white space is unchanged |
| Text.StripLowerCommute | pages/ExerciseSession.tsx:44-45 | deleting white space and lower-casing commute |
| Text.BlankIffStripsToEmpty | pages/AILab.tsx:29 | `!s.trim()` holds exactly when nothing is left once white space is deleted |
| Text.Split | pages/LessonDetail.tsx:114 | `split`: the fields contain no separator, and joining them back gives the input |
| Text.FirstField | pages/LessonDetail.tsx:114 | `split(sep)[0]`: a prefix without the separator that ends at the first separator or at the end |
| Text.SplitJoin | pages/AILab.tsx:58 | splitting a join of separator-free parts gives the parts back |
| Text.JoinSplit | pages/LessonDetail.tsx:114 | joining the fields of a split gives the input back |
| Text.SplitInfix | pages/LessonDetail.tsx:114 | a first field followed by a separator splits there |
| Text.SplitClean | pages/LessonDetail.tsx:114 | text without the separator is a single field |
| Text.ContainsInfix | services/geminiService.ts:27 | a string occurs in any text it is spliced into |
| Text.ContainsEmpty | pages/Courses.tsx:22-23 | the empty search term occurs in every string |
| Types.LevelRank | types.ts:2 | each of the seven levels has a curriculum rank below 7 |
| Types.LevelValuesDistinct | types.ts:2 | no two levels share a string or a curriculum rank |
| Collections.Filter | pages/Courses.tsx:21-27 | `filter`: no longer than the input, keeps exactly the elements passing the test |
| Collections.FilterIsSubsequence | pages/Courses.tsx:21 | the kept elements stay in their input order |
| Collections.FilterAll | pages/Courses.tsx:21-27 | when every element passes, the filter is the identity |
| Collections.FilterNone | pages/Dashboard.tsx:23 | when no element passes, the result is empty |
| Collections.FilterConcat | pages/Dashboard.tsx:23 | filtering a concatenation is the concatenation of the filtered parts |
| Collections.FilterMiddle | pages/Dashboard.tsx:23 | a passing block between failing stretches is the whole result |
| Collections.FilterBlock | pages/Dashboard.tsx:23 | when exactly one run of positions passes, the filter returns that run |
| Collections.FilterSame | pages/Courses.tsx:21-27 | filters that agree on every element agree |
| Collections.SubsequenceMembers | pages/Courses.tsx:21 | every element of a subsequence occurs in the sequence |
| Collections.Find | constants.ts:14-177 | `find`: the first element passing the test, or none exactly when no element passes |
| Collections.Distinct | pages/Courses.tsx:18 | `Array.from(new Set(…))`: no duplicates, and exactly the input's elements |
| Collections.DistinctFirstAppearance | pages/Courses.tsx:18 | elements come in the order of their first appearance in the input |
| Collections.DistinctNothingNew | pages/Courses.tsx:18 | elements already seen add nothing |
| Collections.DistinctSnoc | pages/Courses.tsx:18 | an element not seen before is added at the end |
| Constants.FindLesson | pages/LessonDetail.tsx:12 | `MOCK_LESSONS.find(l => l.id === id)`: a lesson with that id, or none exactly when no lesson has it |
| Constants.ExercisesFor | pages/ExerciseSession.tsx:19 | `MOCK_EXERCISES[id \|\| ''] \|\| []`: the exercises filed under the id, otherwise the empty list |
| Constants.LevelsInCurriculumOrder | constants.ts:4-12 | `LEVELS` lists the seven levels once each, from 6eme to Terminale |
| Constants.LessonIdsDistinct | constants.ts:14-177 | no two lessons share an id |
| Constants.ExerciseIdsDistinct | constants.ts:179-300 | no two exercises share an id |
| Constants.AllExercisesCoverTable | constants.ts:179-300 | the list of all exercises holds every exercise of the table |
| Constants.ExercisesFiledUnderTheirLesson | constants.ts:179-300 | every exercise stored under key k has lesson id k |
| Constants.ExerciseKeysAreLessons | constants.ts:14-300 | every key of the exercise table is the id of a lesson |
| Constants.FindLessonById | constants.ts:14-177 | each lesson is found by its own id |
| MathRenderer.FindClose | components/MathRenderer.tsx:27-30 | the lazy `(.*?)` search finds a closing delimiter at or after its start |
| MathRenderer.FindCloseFirst | components/MathRenderer.tsx:27-30 | the search finds the first close on the line, and finds none exactly when there is none |
| MathRenderer.FirstCloseUnique | components/MathRenderer.tsx:27-30 | the first close is unique |
| MathRenderer.ScanOpensSpan | components/MathRenderer.tsx:27-30 | a span opens at a delimiter and ends at its first close |
| MathRenderer.ScanAtClose | components/MathRenderer.tsx:27-30 | one scanning step where a span opens and is closed |
| MathRenderer.ScanLiteralStep | components/MathRenderer.tsx:27-30 | one scanning step where the character is copied |
| MathRenderer.ScanCopiesChar | components/MathRenderer.tsx:27-30 | a character that opens no closed span is copied |
| MathRenderer.ScanLiteralPrefix | components/MathRenderer.tsx:27-30 | text before any possible delimiter is copied character by character |
| MathRenderer.Literals | components/MathRenderer.tsx:27-30 | plain text as pieces: one literal per character |
| MathRenderer.UnclosedDollarCopied | components/MathRenderer.tsx:30 | a `$` with no `$` after it on its line is copied |
| MathRenderer.LoneDollarStaysLiteral | components/MathRenderer.tsx:30 | an unterminated `$` stays in the output as a literal, with the text before it copied |
| MathRenderer.FirstCloseTexClean | components/MathRenderer.tsx:27-30 | the TeX up to the first close has no line break and no earlier delimiter |
| MathRenderer.ScanSpansClean | components/MathRenderer.tsx:27-30 | no span of a scan crosses a line break or a closing delimiter |
| MathRenderer.FlattenConcat | components/MathRenderer.tsx:27-30 | rebuilding text from pieces distributes over concatenation |
| MathRenderer.SpanRebuild | components/MathRenderer.tsx:27-30 | a delimited span is its delimiters around its TeX |
| MathRenderer.ScanRoundTrip | components/MathRenderer.tsx:27-30 | scanning loses nothing: the pieces spell out the input exactly |
| MathRenderer.SubstituteNoSpans | components/MathRenderer.tsx:27-32 | replacing in text with no span reproduces the text |
| MathRenderer.SubstituteConcat | components/MathRenderer.tsx:27-32 | the replacement works piece by piece, left to right, and stops at the first failure |
| MathRenderer.SubstituteLiterals | components/MathRenderer.tsx:27-32 | replacing in literal text gives the text back |
| MathRenderer.LiteralsFlatten | components/MathRenderer.tsx:27-32 | literal pieces rebuild their text |
| MathRenderer.BlockSpanNeedsFourDollars | components/MathRenderer.tsx:27 | any display span uses four `$` of the input |
| MathRenderer.BlockPassIdentity | components/MathRenderer.tsx:27-29 | with fewer than four `$`, the display pass changes nothing |
| MathRenderer.ReplaceNewlines | components/MathRenderer.tsx:33 | `replace(/\n/g, '<br/>')`: no newline is left |
| MathRenderer.ReplaceNewlinesConcat | components/MathRenderer.tsx:33 | the newline replacement distributes over concatenation |
| MathRenderer.ReplaceNewlinesIdentity | components/MathRenderer.tsx:33 | text without a newline is unchanged |
| MathRenderer.WholeContentTypeset | components/MathRenderer.tsx:24-39 | without a `$`, the whole content is typeset once in the caller's mode, and shown raw when that throws |
| MathRenderer.FailureShowsRawContent | components/MathRenderer.tsx:22-43 | raw text is shown exactly when a pass fails, and it is the content itself |
| MathRenderer.ScanCleanSpan | components/MathRenderer.tsx:27-30 | a delimited span with clean TeX is read as one span |
| MathRenderer.DollarFreeIsClean | components/MathRenderer.tsx:27-30 | TeX with no `$` and no line break is clean for either delimiter |
| MathRenderer.DisplaySpanTakesPrecedence | components/MathRenderer.tsx:27-33 | `$$tex$$` is typeset once in display mode |
| MathRenderer.InlineAloneSplitsDisplaySpan | components/MathRenderer.tsx:30 | the inline pattern alone would read `$$x^2$$` as two empty spans around `x^2`, which is why the display pass runs first |
| MathRenderer.ScanInlineSpanThenText | components/MathRenderer.tsx:30 | the inline scan of a span followed by plain text |
| MathRenderer.ScanInlineSpan | components/MathRenderer.tsx:30 | the inline scan of plain text around one span |
| MathRenderer.InlinePassOverSpan | components/MathRenderer.tsx:30-32 | the inline pass replaces just the span by its markup |
| MathRenderer.RenderBothPasses | components/MathRenderer.tsx:24-33 | when both passes succeed, the markup is the second pass's output with newlines as `<br/>` |
| MathRenderer.TwoDollars | components/MathRenderer.tsx:30 | text around one inline span holds exactly two `$` |
| MathRenderer.InlineSpanInText | components/MathRenderer.tsx:24-33 | a span inside text: the text on both sides is copied, the span becomes inline markup, then newlines become `<br/>` |
| MathRenderer.MathView.constructor | components/MathRenderer.tsx:14-47 | the first render shows `renderMath`'s surface |
| MathRenderer.MathView.Render | components/MathRenderer.tsx:14-47 | every re-render overwrites the container with the new surface |
| App.Load | App.tsx:17-20 | start-up crashes exactly on a malformed entry, and finds a profile exactly when one is saved under the key, namely that profile |
| App.LoadAfterSave | App.tsx:24-28 | a profile written under the key is read back at the next start-up |
| App.LoadAfterRemove | App.tsx:88-91 | once the key is removed, no profile is found |
| App.LoadIgnoresOtherKeys | App.tsx:18 | entries under other keys play no part |
| App.StreakUpdate | App.tsx:31-60 | the last active day becomes today, and nothing but the streak and that day changes |
| App.StreakCases | App.tsx:36-51 | active today: unchanged; yesterday: one more; no day or an older day: 1 |
| App.StreakUpdateIdempotent | App.tsx:36 | opening the app twice on one day counts once |
| App.ConsecutiveDays | App.tsx:44-45 | visits on n consecutive days add n to the streak |
| App.DailyVisits | App.tsx:53-57 | after visits up to some day, that day is the last active one |
| App.MissedDayResets | App.tsx:46-48 | missing a day resets any streak to 1 |
| App.NewProfile | App.tsx:62-78 | the email and level given; the name is the part of the address before its first `@`; 0 XP, streak 1, active today, the welcome badge, and four subjects at 50 |
| App.NewProfileName | App.tsx:65 | the name of `user@host` is `user` |
| App.NewProfileNeedsNoStreakUpdate | App.tsx:36-69 | a new profile is already up to date for its first day |
| App.AppState.Commit | App.tsx:24-28 | `setProfile` then the persist effect: a profile is written under the key, null writes nothing |
| App.AppState.Mount | App.tsx:17-60 | the loaded profile, saved and then updated by the streak rule; no profile and no write when none is saved; a crash on a malformed entry |
| App.AppState.HandleLogin | App.tsx:62-78 | a fresh profile replaces whatever was held, and it is persisted |
| App.AppState.SubmitLogin | pages/Login.tsx:14-19 | the login form logs in only with a non-empty address, while no profile is held |
| App.AppState.HandleLevelChange | App.tsx:80-82 | only the level changes, and it is persisted; nothing without a profile |
| App.AppState.AddXP | App.tsx:84-86 | only the experience changes, by the amount, and it is persisted; nothing without a profile |
| App.AppState.HandleLogout | App.tsx:88-91 | the key is removed and the profile dropped, so the next start-up finds none |
| ExerciseSession.Judge | pages/ExerciseSession.tsx:43-47 | correct exactly when the answer and the solution are equal after normalisation |
| ExerciseSession.CorrectCount | pages/ExerciseSession.tsx:47-49 | at most one per verdict; all verdicts correct exactly when it is the number of verdicts; all wrong exactly when it is 0 |
| ExerciseSession.CorrectCountAppend | pages/ExerciseSession.tsx:49 | a new verdict adds one when correct, nothing when wrong |
| ExerciseSession.CorrectIgnoresCase | pages/ExerciseSession.tsx:44-45 | the judgement ignores case on either side |
| ExerciseSession.CorrectIgnoresSpacing | pages/ExerciseSession.tsx:44-45 | the judgement ignores white space inserted anywhere in the answer |
| ExerciseSession.BlankAnswerJudgement | pages/ExerciseSession.tsx:44-47 | a blank answer is correct only for a blank solution |
| ExerciseSession.JudgeIsTextual | pages/ExerciseSession.tsx:47 | for answers with no spaces or capitals the check is string equality, so equivalent fractions are wrong |
| ExerciseSession.Session.ScoreBounds | pages/ExerciseSession.tsx:28-49 | the score is a multiple of 50 and at most 50 per exercise reached |
| ExerciseSession.Session.constructor | pages/ExerciseSession.tsx:19-28 | the exercises filed under the lesson, at the first one, with no answer, no feedback and score 0 |
| ExerciseSession.Session.Type | pages/ExerciseSession.tsx:126-127 | the answer field changes only while a question awaits its answer |
| ExerciseSession.Session.PressEnter | pages/ExerciseSession.tsx:128-129 | Enter runs the check whenever there is no feedback yet |
| ExerciseSession.Session.ClickCheck | pages/ExerciseSession.tsx:191-199 | the button runs the check only with a non-blank answer and no explanation loading |
| ExerciseSession.Session.HandleCheck | pages/ExerciseSession.tsx:43-52 | a correct answer earns 50 points; a wrong one starts an explanation call for this exercise and answer |
| ExerciseSession.Session.Record | pages/ExerciseSession.tsx:47-52 | the state after a given verdict, keeping the score equal to 50 per correct verdict |
| ExerciseSession.Session.ResolveExplanation | pages/ExerciseSession.tsx:53-60 | the explanation, or the fallback when the call threw, and loading ends |
| ExerciseSession.Session.ClickNext | pages/ExerciseSession.tsx:191-199 | Continue is available only after the verdict |
| ExerciseSession.Session.HandleNext | pages/ExerciseSession.tsx:64-74 | on to the next exercise with the answer cleared, or finished on the last, with the score reported exactly once |
| LessonDetail.Whiteboard | pages/LessonDetail.tsx:111-116 | nothing below 10, the title below 40, the content's first line below 70, then the whole content |
| LessonDetail.WhiteboardGrows | pages/LessonDetail.tsx:114-115 | past 40, what the whiteboard shows only grows |
| LessonDetail.FirstLineIsWholeContentIffOneLine | pages/LessonDetail.tsx:114-115 | the first-line stage equals the last one exactly for single-line content |
| LessonDetail.TierCount | pages/LessonDetail.tsx:118-122 | at most the number of exercises, and positive exactly when the tier has an exercise |
| LessonDetail.TierCountSplit | pages/LessonDetail.tsx:118-122 | the count goes one exercise at a time |
| LessonDetail.TierCountsSum | pages/LessonDetail.tsx:118-122 | the three tier counts add up to the number of exercises |
| LessonDetail.SomeTierIffExercises | pages/LessonDetail.tsx:329-330 | some tier is available exactly when the lesson has exercises |
| LessonDetail.TutorLevel | pages/LessonDetail.tsx:103 | the lesson's level, or 3eme without a lesson |
| LessonDetail.QuickQuiz.constructor | pages/LessonDetail.tsx:12-25 | the lesson and its exercises, with the quiz idle and empty |
| LessonDetail.QuickQuiz.ClickStart | pages/LessonDetail.tsx:255 | from idle, straight to answering |
| LessonDetail.QuickQuiz.Type | pages/LessonDetail.tsx:268-269 | the answer changes only while answering |
| LessonDetail.QuickQuiz.HandleQuickQuiz | pages/LessonDetail.tsx:84-102 | from idle only opens the question; otherwise judges against the first exercise and starts an explanation when wrong; nothing without exercises |
| LessonDetail.QuickQuiz.Record | pages/LessonDetail.tsx:96-102 | the state after a given verdict on the first exercise |
| LessonDetail.QuickQuiz.Submit | pages/LessonDetail.tsx:270-273 | Enter and the check button run the handler while answering |
| LessonDetail.QuickQuiz.ResolveExplanation | pages/LessonDetail.tsx:103-105 | the explanation and end of loading; a throw leaves the flag set |
| LessonDetail.QuickQuiz.Retry | pages/LessonDetail.tsx:313 | back to idle with the answer and the verdict cleared |
| LessonDetail.QuickQuiz.Close | pages/LessonDetail.tsx:316 | back to idle keeping the answer and the verdict |
| GeminiService.TutorContents | services/geminiService.ts:9-12 | one entry per past turn, in order, then exactly one user turn with the message |
| GeminiService.TutorContentsHistory | services/geminiService.ts:9-12 | the conversation sent is the history followed by the message |
| GeminiService.TextOr | services/geminiService.ts:23-38 | `text \|\| fallback`: the text when non-empty, else the fallback, never empty with a non-empty fallback |
| GeminiService.TutorReply | services/geminiService.ts:23 | the reply text, or its fixed fallback; never empty |
| GeminiService.ContainsInputs | services/geminiService.ts:27 | each input spliced into a template occurs in it |
| GeminiService.ExplainPromptEmbeds | services/geminiService.ts:27-28 | the prompt carries the level, the answer, the question and the correct answer |
| GeminiService.ExplainReply | services/geminiService.ts:38 | the explanation text, or its fixed fallback; never empty |
| GeminiService.Property | services/geminiService.ts:66-69 | `data[key]`: the last binding of the key in an object, present whenever the key is bound |
| GeminiService.PropertyLastWins | services/geminiService.ts:66 | the last binding of a key wins |
| GeminiService.ScanProblem | services/geminiService.ts:64-73 | the hint is always truthy |
| GeminiService.ScanPassesAnswerThrough | services/geminiService.ts:66-70 | a well-formed answer is passed through unchanged |
| GeminiService.ScanOfNoText | services/geminiService.ts:65-69 | no text reads as `{}`: the default hint and no formulas |
| GeminiService.ScanOfGarbage | services/geminiService.ts:65-73 | unparseable text, and text that parses to `null` (whose `hint` throws), give the "could not read" hint with no formulas |
| GeminiService.ScanNormalises | services/geminiService.ts:68-69 | a falsy hint is replaced by the default; formulas are kept only when they are an array |
| GeminiService.NatText | pages/AILab.tsx:58 | the decimal digits of a number |
| GeminiService.NatTextRoundTrip | pages/AILab.tsx:58 | reading the digits back gives the number |
| GeminiService.Display | pages/AILab.tsx:58 | `String()` in a template literal throws only on an array or an object with an own `toString` key, and always throws on the latter |
| GeminiService.DisplayText | pages/AILab.tsx:58 | a string shows as itself, a number as its digits |
| GeminiService.DisplayArrayThrows | pages/AILab.tsx:58 | an array throws exactly when one of its non-`null` elements throws |
| GeminiService.LessonAudio | services/geminiService.ts:99-104 | audio only when the call succeeded and the first part of the first candidate has non-empty data; none on a throw |
| GeminiService.LessonAudioFound | services/geminiService.ts:99-100 | data present in that first part is returned |
| AILab.FormulaLines | pages/AILab.tsx:58 | one `- $f$` line per formula, in order |
| AILab.FormulaLinesRecoverable | pages/AILab.tsx:58 | splitting the joined formula list at line breaks gives the lines back |
| AILab.ContainsAfterPrefix | pages/AILab.tsx:58 | text found in a suffix is found in the whole |
| AILab.JoinContainsParts | pages/AILab.tsx:58 | every part of a join occurs in it |
| AILab.ScanMessageShowsAll | pages/AILab.tsx:58 | the scan message shows the hint and a line for every formula |
| AILab.ScanOutcomeShowsStrings | pages/AILab.tsx:56-59 | a scan result of strings posts the hint-and-formulas message built from exactly those strings |
| AILab.ScanOutcomeThrows | pages/AILab.tsx:56-61 | a hint or formula with an own `toString` key makes the message throw, and the apology is posted |
| AILab.Turns | pages/AILab.tsx:37 | the log's role and text, message by message |
| AILab.TutorChat.constructor | pages/AILab.tsx:13-18 | the greeting alone, an empty field, nothing loading |
| AILab.TutorChat.Type | pages/AILab.tsx:123 | only the input field changes |
| AILab.TutorChat.HandleSend | pages/AILab.tsx:28-35 | ignored while blank or loading; otherwise posts the input, clears the field, and asks the tutor with the log as it was before the message |
| AILab.TutorChat.ReplyArrives | pages/AILab.tsx:37-43 | appends the reply or the fallback, and loading ends |
| AILab.TutorChat.ChooseFile | pages/AILab.tsx:46-50 | a chosen photo starts a scan unless a scan or a reply is under way |
| AILab.TutorChat.ScanArrives | pages/AILab.tsx:57-64 | appends the hint-and-formulas message or the apology, and scanning ends |
| AILab.ExtendsAppend | pages/AILab.tsx:32-59 | appending keeps every earlier message in place |
| AILab.ExtendsTransitive | pages/AILab.tsx:32-59 | the log only grows across several steps |
| AILab.SendAndReply | pages/AILab.tsx:28-44 | a send and its reply add exactly the question and the answer |
| Courses.LessonCategories | pages/Courses.tsx:18 | the lessons' categories, lesson by lesson |
| Courses.Categories | pages/Courses.tsx:18 | each category of the lessons once, and only those |
| Courses.LibraryLessonCategories | constants.ts:14-177 | the library's lesson categories, in order |
| Courses.LibraryCategoryListDistinct | pages/Courses.tsx:18 | the distinct categories of that list, in first-appearance order |
| Courses.LibraryCategories | pages/Courses.tsx:18 | the buttons are Algebre, Geometrie and Analyse, in that order |
| Courses.FilteredLessons | pages/Courses.tsx:21-27 | the lessons in order that match the search, the chosen category and (unless every level is shown) the student's level |
| Courses.NoFilterShowsAll | pages/Courses.tsx:21-27 | an empty search, no category and every level show every lesson |
| Courses.ShowAllWidens | pages/Courses.tsx:25 | showing every level only adds lessons |
| Courses.CategoryNarrows | pages/Courses.tsx:24 | choosing a category only removes lessons, leaving those of the category |
| Courses.SearchIgnoresCase | pages/Courses.tsx:22-23 | the search ignores capitalisation |
| Courses.CourseBrowser.constructor | pages/Courses.tsx:14-16 | empty search, no category, own level only |
| Courses.CourseBrowser.Search | pages/Courses.tsx:52 | only the search term changes |
| Courses.CourseBrowser.ToggleAllLevels | pages/Courses.tsx:37 | the level switch flips |
| Courses.CourseBrowser.ShowAllLevels | pages/Courses.tsx:78-89 | the panel's button shows every level; it is there only when nothing matches at the student's level |
| Courses.CourseBrowser.ClickCategory | pages/Courses.tsx:57-60 | clicking the chosen category clears it, clicking another chooses it |
| Courses.CourseBrowser.ClearCategory | pages/Courses.tsx:70-71 | the X clears the category |
| Courses.CourseBrowser.ResetFilters | pages/Courses.tsx:118-122 | when nothing matches, reset clears the search and the category but keeps the level switch |
| Dashboard.RadarData | pages/Dashboard.tsx:13-17 | one spoke per strength, in order, with its subject and value, out of 100 |
| Dashboard.RadarDataRecoversStrengths | pages/Dashboard.tsx:13-17 | the strengths can be read back off the chart |
| Dashboard.NewProfileRadar | pages/Dashboard.tsx:13-17 | a new profile's chart: four subjects at 50 of 100 |
| Dashboard.IsLyceeIffUpperYears | pages/Dashboard.tsx:19 | lycée exactly for 2nde, 1ere and Terminale, the last three years |
| Dashboard.StreakUnit | pages/Dashboard.tsx:36 | plural exactly above 1 |
| Dashboard.StreakUnitFirstDays | pages/Dashboard.tsx:36 | a new profile shows one day; the next day's visit makes it plural |
| Dashboard.LevelLessons | pages/Dashboard.tsx:23 | the lessons at the level, in order, and all of them |
| Dashboard.Recommended | pages/Dashboard.tsx:24 | the level's lessons when it has some, else every lesson |
| Dashboard.Shown | pages/Dashboard.tsx:103 | at most three: the first three recommended, or all of them when fewer |
| Dashboard.PairShown | pages/Dashboard.tsx:23-103 | when the level's lessons are two adjacent ones, exactly those are shown |
| Dashboard.LibraryLevels | constants.ts:14-177 | the library holds two lessons per level, in curriculum order |
| Dashboard.LibraryRecommendsOwnLevel | pages/Dashboard.tsx:23-103 | with the library as shipped, the fallback never happens: the level's two lessons are shown |

## Left out

- pages/Simulations.tsx is not part of this model. It samples a float parabola and maps it to SVG coordinates.
- components/Layout.tsx, pages/Profile.tsx and pages/Challenges.tsx are not part of this model. They are presentational. Layout's lycée test is the one in `Dashboard.IsLyceeIffUpperYears`.
- The only logic of pages/Login.tsx is its non-empty-address guard, which `App.AppState.SubmitLogin` models. The browser's own validation of the `type="email" required` field is not modelled, so the model accepts a non-empty address that is not shaped like an email address, which the browser would refuse. Its other parts are presentational.
- KaTeX itself, the AI SDK and its network calls, and `FileReader`'s base64 reading are not modelled. Each is an input.
- The audio element, playback and the progress ticker (`setInterval`, `p + 0.2`) are not modelled. They are I/O and float timing; the whiteboard takes the progress as a real number.
- Scrolling effects and navigation (`navigate`, `Link`) are not modelled.
- The prompts of the tutor, scan and audio calls are not modelled. They go to the AI service and affect no state. Only the remediation prompt is modelled, since it carries the student's inputs.
- The system instructions and model names of the calls are not modelled.
- `toDateString` local-time semantics and ISO timestamps are not modelled. Days are integer day numbers, so "yesterday" is `today - 1`.
- The JSON wire format of the stored profile is not modelled. A stored value is a serialised profile, a falsy value, or malformed text.
- Stored JSON that parses to a truthy non-profile value is not modelled.
- JSON numbers are integers. Fractions and exponents in a scan answer are not modelled.
- `String()` is modelled on parsed JSON only: an object with an own `toString` key throws, which sends the scan to the apology; prototype tricks beyond that are not modelled.
- The full Unicode white-space and case tables are not modelled. `toLowerCase` covers the ASCII and Latin-1 capitals, and `\s` and `trim` cover the white-space characters the model lists.
- The level labels (`LEVELS[i].label`) shown in headers are not modelled.
- The streak number next to the unit is not modelled. It is shown as plain text.
- Concurrency and unmounting are not modelled. Continuations are called in the order the model's user chooses. A continuation after unmount is not modelled.
- `LessonDetail.TutorLevel`: its 3eme fallback is unreachable on the page, because a missing lesson shows only "Cours introuvable". It is stated, but no lemma relies on it.
- `ExerciseSession.Session.HandleCheck`: the score is kept as the total the functional update `s => s + 50` produces. React's batching of state updates is not modelled.
