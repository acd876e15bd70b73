# Dashboard core logic, modelled in Dafny

This project models the logic of a React/TypeScript personal dashboard: the
widgets and services that compute something or keep state, without their
rendering. Each core source file becomes one Dafny module:

- **OsintDatabase**, **OsintService**: the contact table and the name search
  (case-insensitive, every match) and phone search (digits only, first match).
- **AuthContext**, **App**: the two-user login table, login/logout/restore of
  the saved session, and which dashboard widgets a user sees.
- **LessonService**: cleaning of the model's reply (code fences), validation
  of the lesson JSON with its defaults and clamps, and the fallback lesson.
- **PromptBuilder**: the chat prompt built from vision data and history.
- **ModelLoader**: the character tokenizer, the lazily created single
  instance, and the load/generate guards around the inference session.
- **VisionSystem**: the scene analysis (danger classes, crowded classes,
  several faces).
- **Whiteboard**: the snapshot history with undo and redo.
- **TodoList**, **NotesManager**: list editing by id.
- **Timer**, **Pomodoro**, **Clock**: the countdowns and the `mm:ss` display.
- **Calculator**, **PasswordGenerator**, **Translator**,
  **LanguageTranslator**: button handlers and their state.

Three helper modules hold what the others share: **Wrappers** (`Option`,
`Result`), **Text** (the JavaScript string operations the sources use:
`includes`, ASCII `toLowerCase`, `trim`, digit stripping, `parseInt`,
number formatting, `padStart`) and **Seqs** (`filter`, `map` and association
lists used as ordered JavaScript objects).

Where the source asks the outside world for something, the model takes it as
a parameter: `Math.random` draws, `Date.now()` timestamps, the text the
language model answers, `JSON.parse`, the saved `localStorage` entry, the
result of creating and running the inference session, and the value that
`new Function` evaluation gives the calculator's equation. React state slots
become fields of a class whose methods are the event handlers. Each handler
runs as one atomic step. An asynchronous handler becomes two steps: one
starts the request and one takes its answer.

## Model

| member | source | states |
|---|---|---|
| App.Render | src/App.tsx:16-87 | the startup sequence is shown first, the login screen when there is no session, and the dashboard exactly when startup is over and a user is signed in |
| App.AdminDashboard | src/App.tsx:28-81 | an admin gets the weather forecast and the chat and never the calculator, whatever the feature list |
| App.NonAdminDashboard | src/App.tsx:28-81 | a non-admin gets the expense tracker; the calculator and the chat appear exactly when granted (by name or by `'all'`) |
| App.TableUsersDashboards | src/App.tsx:50-81 | the table's admin sees forecast and chat without calculator; the table's member sees expense tracker, calculator and chat |
| AuthContext.GetUserConfig | src/contexts/AuthContext.tsx:35-50 | a configuration exists exactly for the two user names of the table, carries that user name, and gives the admin role only to `csiedentop` |
| AuthContext.UserTable | src/contexts/AuthContext.tsx:36-47 | the two table entries with their roles and feature lists |
| AuthContext.AuthProvider.constructor | src/contexts/AuthContext.tsx:26 | the provider starts without a session |
| AuthContext.AuthProvider.Restore | src/contexts/AuthContext.tsx:28-33 | on mount a saved entry becomes the session unchanged; without one the session stays as it was |
| AuthContext.AuthProvider.Login | src/contexts/AuthContext.tsx:52-60 | login succeeds exactly for a table user name; success sets and saves that entry; failure changes nothing |
| AuthContext.AuthProvider.Logout | src/contexts/AuthContext.tsx:62-65 | logout clears both the session and the saved entry |
| AuthContext.LoginIgnoresPassword | src/contexts/AuthContext.tsx:52-60 | two logins with different passwords give the same outcome and the same state |
| AuthContext.LogoutIdempotent | src/contexts/AuthContext.tsx:62-65 | logging out twice leaves the state of logging out once |
| AuthContext.RestoreUnchecked | src/contexts/AuthContext.tsx:28-33 | a saved user that is not in the table is still adopted as the session on mount |
| OsintDatabase.EntryInBlock | src/data/osintDatabase.ts:8-213 | the table has 40 entries in declaration order; entry i is the (i mod 10)-th entry of its block of ten |
| OsintDatabase.TableShape | src/data/osintDatabase.ts:8-14 | the table holds 40 records and starts with Steven D Siedentop at 4047691559 |
| OsintDatabase.TenDigitsAreDigits | src/data/osintDatabase.ts:1-6 | a phone spelled as ten digits position by position consists of decimal digits only |
| OsintDatabase.PhonesOfBlock0 | src/data/osintDatabase.ts:9-62 | every phone of entries 0 to 9 is ten digits |
| OsintDatabase.PhonesOfBlock1 | src/data/osintDatabase.ts:63-112 | every phone of entries 10 to 19 is ten digits |
| OsintDatabase.PhonesOfBlock2 | src/data/osintDatabase.ts:113-162 | every phone of entries 20 to 29 is ten digits |
| OsintDatabase.PhonesOfBlock3 | src/data/osintDatabase.ts:163-212 | every phone of entries 30 to 39 is ten digits |
| OsintDatabase.PhonesAreTenDigits | src/data/osintDatabase.ts:8-213 | every stored phone is exactly ten decimal digits, so the phone search's digit stripping leaves it unchanged |
| OsintDatabase.StevenPhone | src/data/osintDatabase.ts:9-26 | the first three entries share the phone 4047691559 and the age "50s" |
| OsintDatabase.DuplicatesInBlock0 | src/data/osintDatabase.ts:9-62 | in entries 0 to 9 each spaced name and its unspaced duplicate share address and phone |
| OsintDatabase.DuplicatesInBlock1 | src/data/osintDatabase.ts:63-112 | in entries 10 to 19 each even entry and the next share address and phone |
| OsintDatabase.DuplicatesInBlock2 | src/data/osintDatabase.ts:113-162 | in entries 20 to 29 each even entry and the next share address and phone |
| OsintDatabase.DuplicatesInBlock3 | src/data/osintDatabase.ts:163-212 | in entries 30 to 39 each even entry and the next share address and phone |
| OsintDatabase.DuplicatesShareContact | src/data/osintDatabase.ts:8-213 | every spaced name and its unspaced duplicate have the same address and phone: entries 0/1, 4/3, 5/6 and each even entry from 8 on with the next |
| OsintDatabase.EarlierTwinSharesPhone | src/data/osintDatabase.ts:8-213 | the second and third Steven entries and the later entry of each duplicate pair have an earlier entry with the same phone |
| OsintService.NameMatchIff | src/services/osintService.ts:11-14 | a record matches the name search exactly when its lower-cased name contains the lower-cased query at some offset |
| OsintService.SearchByNameResult | src/services/osintService.ts:10-25 | the result is only 'No records found' exactly when no name matches; otherwise its name is the first match in table order and it lists one address and one phone per match, in table order |
| OsintService.SearchByName | src/services/osintService.ts:10-25 | on the contact table the answer is 'No records found' or at least one match, with as many addresses as phones |
| OsintService.EmptyNameQueryMatchesAll | src/services/osintService.ts:11-24 | an empty query matches every record, so a non-empty table answers with its first name and all addresses and phones |
| OsintService.FirstPhoneHit | src/services/osintService.ts:29-31 | `find` gives the first index whose phone matches, or -1 exactly when none does |
| OsintService.PhoneHitIff | src/services/osintService.ts:28-31 | a record matches the phone search exactly when the query's digits occur in the record's digits |
| OsintService.SearchByPhoneResult | src/services/osintService.ts:27-42 | the result is only 'No records found' exactly when no record's digits contain the query's digits; otherwise it is the first matching record, with singleton address and phone lists |
| OsintService.SearchByPhone | src/services/osintService.ts:27-42 | on the contact table the answer is 'No records found' or exactly one address and one phone, and that phone is one of the table's |
| OsintService.PhoneQueryWithoutDigits | src/services/osintService.ts:28-31 | a query without digits strips to the empty string, which every phone contains, so the first record is returned |
| OsintService.PhoneQueryPunctuationIgnored | src/services/osintService.ts:28 | two queries with the same digits give the same answer |
| OsintService.SameDigitsSameHit | src/services/osintService.ts:28-31 | two queries with the same digits find the same first record |
| OsintService.LaterDuplicateNeverFound | src/services/osintService.ts:27-31 | `find` never answers with an entry that has an earlier entry with the same phone |
| OsintService.DuplicatesNeverFoundByPhone | src/services/osintService.ts:27-42 | on the contact table no phone query answers with entries 1, 2, 4, 6 or any odd entry from 9 on |
| OsintService.SearchStevenByPhone | src/services/osintService.ts:27-42 | the number 4047691559 finds Steven D Siedentop with his address and phone |
| LessonService.Get | src/services/lessonService.ts:146-187 | a property read is `undefined` unless the value is an object holding that key, and then it is the stored value |
| LessonService.Or | src/services/lessonService.ts:146-148 | `a \|\| b` is `a` when `a` is truthy and `b` otherwise |
| LessonService.StringToNumber | src/services/lessonService.ts:181-189 | `Number` of a string of digits (after trimming) is its decimal value, and of a blank string 0 |
| LessonService.ToNumber | src/services/lessonService.ts:181-189 | `Number(v)` where it does not throw (`Throws` says where it does): a number is itself, a boolean 1 or 0, a string as `StringToNumber` reads it, an object without its own `toString` key NaN, an empty array 0 and an array of one number that number |
| LessonService.NumberOfIntToString | src/services/lessonService.ts:181-189 | `Number` reads back every integer written in decimal, the string form of an array of one number |
| LessonService.NumberOr | src/services/lessonService.ts:181-189 | `Number(v) \|\| d` is the default for NaN and zero, and the number itself for any other number |
| LessonService.Clamp | src/services/lessonService.ts:188-189 | `Math.min(Math.max(v, lo), hi)` lies in lo..hi, is v inside the range and the nearer bound outside it |
| LessonService.ObjectiveOf | src/services/lessonService.ts:155-159 | a learning objective survives exactly when it is a string, and is trimmed |
| LessonService.TermOf | src/services/lessonService.ts:162-169 | a vocabulary entry survives exactly when both `term` and `definition` are strings, each trimmed |
| LessonService.KindOf | src/services/lessonService.ts:180 | the kind is always one of 'text', 'line', 'circle': a known kind is kept and anything else becomes 'text' |
| LessonService.ColorOf | src/services/lessonService.ts:184 | for a colour whose conversion does not throw (a throwing one is caught first by `DrawStepOf`), the test reads the colour's string form: the colour itself is kept, even an array, when that form is '#' and six hex digits, and anything else becomes '#000000'; either way the kept colour's string form is a hex colour |
| LessonService.ColorPassesOnlyStringsAndArrays | src/services/lessonService.ts:184 | only a string or an array can pass the colour test; a hex string passes and is kept, and so does an array holding one, kept as an array |
| LessonService.DrawStepOf | src/services/lessonService.ts:177-190 | a draw step is dropped exactly when its `type` is falsy, and throws a TypeError exactly when it passes the filter and one of x, y, color, thickness, width, delay, duration is a value whose conversion throws (an object with its own `toString` key, or an array holding one); every other step survives with a known kind, a colour whose string form is a hex colour (the given colour when it passes, black otherwise), a delay in 0..2000 and a duration in 100..3000 |
| LessonService.StepOf | src/services/lessonService.ts:172-191 | a lesson step is dropped exactly when its `content` is not a string, and throws exactly when it is kept and one of its draw steps throws; otherwise its content is trimmed, and each of its draw steps has a known kind, a colour whose string form is a hex colour, and delay and duration in range |
| LessonService.DrawStepsWellFormed | src/services/lessonService.ts:177-190 | converting a step's draw steps throws exactly when one of them does; otherwise every draw step that passes the filter has a known kind, a colour whose string form is a hex colour, and delay and duration in range |
| LessonService.Validate | src/services/lessonService.ts:144-200 | validation throws (here `None`) exactly for a `null` lesson or a kept step holding a throwing draw step; every other value gives a lesson with at least one step, whose draw steps all have a known kind, a colour whose string form is a hex colour, and delay and duration in range |
| LessonService.StepsWellFormed | src/services/lessonService.ts:172-192 | converting the step list throws exactly when a kept step holds a throwing draw step; otherwise every draw step of every surviving lesson step has a known kind, a colour whose string form is a hex colour, and delay and duration in range |
| LessonService.ObjectivesAreTrimmedStrings | src/services/lessonService.ts:155-159 | the objectives are exactly the trimmed string entries of the list |
| LessonService.ObjectivesKeepOrder | src/services/lessonService.ts:155-159 | filtering and trimming objectives keeps their order: a concatenated list gives the concatenated objectives |
| LessonService.VocabularyEntries | src/services/lessonService.ts:162-169 | a vocabulary term is produced exactly from an entry whose `term` and `definition` are strings, trimmed |
| LessonService.TimingDefaults | src/services/lessonService.ts:188-189 | for a draw step that does not throw, a delay or duration that `Number` reads as NaN or 0 becomes 500 or 1000; any other number, including one read from an array, is clamped to 0..2000 or 100..3000 |
| LessonService.TimingFromArray | src/services/lessonService.ts:188-189 | for a draw step that does not throw, a delay or duration given as a one-number array is that number clamped, so `[5000]` becomes a 2000 ms delay |
| LessonService.StepsFallBack | src/services/lessonService.ts:172-197 | when validation does not throw and no step survives the default steps are used, otherwise exactly the surviving steps; a step list with no string content never throws and always falls back |
| LessonService.NonObjectLesson | src/services/lessonService.ts:145-197 | a value that is neither null nor an object reads every property as undefined: empty title fields, no objectives or vocabulary, the default steps |
| LessonService.FenceAt | src/services/lessonService.ts:118 | the regular expression matches at a position only where a backtick starts, or a newline followed by a backtick, and the match is 3, 4, 7 or 8 characters long |
| LessonService.StripFences | src/services/lessonService.ts:118 | removing the fences never makes the text longer |
| LessonService.NoFenceAtJoin | src/services/lessonService.ts:118 | no match starts in backtick-free text followed by text that does not start with a backtick |
| LessonService.StripFencesCopiesHead | src/services/lessonService.ts:118 | where no match starts, the scan copies the first character and goes on with the rest |
| LessonService.StripFencesPassesThrough | src/services/lessonService.ts:118 | backtick-free text passes through unchanged, when what follows does not start with a backtick |
| LessonService.StripFencedReply | src/services/lessonService.ts:118 | a reply fenced as "```json\n" … "\n```" around backtick-free text gives back exactly the inner text |
| LessonService.StripUnfencedReply | src/services/lessonService.ts:118 | a reply without backticks is left as it is |
| LessonService.StripFencesAfterNewline | src/services/lessonService.ts:118 | an opening fence right after a newline loses only "\n```", so the word "json" stays in the text |
| LessonService.Fallback | src/services/lessonService.ts:37-140 | the fallback lesson is the default lesson under the caller's topic, grade and subject, and is well formed |
| LessonService.GenerateLesson | src/services/lessonService.ts:58-142 | the result is always well formed; a failed model call, an unparseable reply or a reply whose validation throws (`null`, or a throwing draw step) gives the fallback lesson; a cleaned reply that parses to any other value gives exactly that value validated |
| LessonService.FencedReplyIsValidated | src/services/lessonService.ts:113-131 | a fenced reply whose inner text parses to a value gives exactly that value validated, or the fallback lesson when validating it throws |
| LessonService.ToStringColourThrows | src/services/lessonService.ts:184 | a colour `{"toString": 1}`, or `[{"toString": 1}]`, makes the colour test throw, so validating a lesson with such a draw step throws |
| LessonService.ToStringKeyFallsBack | src/services/lessonService.ts:119-131 | a reply parsing to such a lesson gives the fallback lesson, since the TypeError is caught with the parse errors |
| PromptBuilder.Window | src/services/promptBuilder.ts:29 | `slice(-5)` is the last five messages, or all of them when there are fewer: a suffix of the context of length min(n, 5) |
| PromptBuilder.BuildPrompt | src/services/promptBuilder.ts:8-37 | the prompt is the system prompt, the vision block, the window's lines and the message turn, in that order; it starts with the system prompt and ends with the message turn |
| PromptBuilder.Assemble | src/services/promptBuilder.ts:13-36 | appending vision block, lines and message turn to a starting text gives their concatenation, which starts with that text and ends with the message turn |
| PromptBuilder.AppendVision | src/services/promptBuilder.ts:16-26 | the step-by-step appends of the vision part add exactly the vision block |
| PromptBuilder.AppendLines | src/services/promptBuilder.ts:29-31 | the `forEach` appends exactly one line per message of the window, in order |
| PromptBuilder.LinesAppend | src/services/promptBuilder.ts:29-31 | the lines of two runs of messages are the lines of the first followed by those of the second |
| PromptBuilder.LineTag | src/services/promptBuilder.ts:30 | a message is tagged `user` exactly when it is the user's, and `assistant` otherwise |
| PromptBuilder.OlderMessagesDropped | src/services/promptBuilder.ts:29 | messages older than the last five do not change the prompt |
| PromptBuilder.VisionBlockPresence | src/services/promptBuilder.ts:16-26 | the vision block is present exactly when there are detections; it opens with its header and closes with "</s>" |
| PromptBuilder.AnomaliesNeedDetections | src/services/promptBuilder.ts:16-23 | anomalies without detections add nothing to the prompt |
| PromptBuilder.BarePrompt | src/services/promptBuilder.ts:4-34 | with no vision data and no history the prompt is the system prompt followed by the message turn |
| ModelLoader.IndexOfVocab | src/services/modelLoader.ts:24 | the vocabulary has 67 characters and each sits at the position computed from its character code |
| ModelLoader.VocabDistinct | src/services/modelLoader.ts:24-28 | the 67 vocabulary characters are pairwise distinct, so no later `set` overwrites an earlier one |
| ModelLoader.TokenizerRoundTrip | src/services/modelLoader.ts:24-28 | the tokenizer and the reverse tokenizer are inverse bijections between the vocabulary and 0..66 |
| ModelLoader.PassComplete | src/services/modelLoader.ts:25-28 | after the pass over every position, the partial maps are the full tokenizer and reverse tokenizer |
| ModelLoader.ModelLoader.constructor | src/services/modelLoader.ts:5-12 | a new loader has no session, is not loading, and has both tokenizer maps filled |
| ModelLoader.ModelLoader.InitializeTokenizer | src/services/modelLoader.ts:21-29 | the `forEach` pass adds every vocabulary character under its index and every index under its character |
| ModelLoader.ModelLoader.Tokenize | src/services/modelLoader.ts:54 | a prompt gives one token per character |
| ModelLoader.TokenizeCharacters | src/services/modelLoader.ts:24-28 | each character of a prompt becomes its vocabulary position, and a character outside the vocabulary becomes 0; every token lies in 0..66 |
| ModelLoader.ModelLoader.StartLoad | src/services/modelLoader.ts:31-34 | a load starts exactly when there is no session and no load in progress; otherwise nothing changes |
| ModelLoader.ModelLoader.FinishLoad | src/services/modelLoader.ts:35-44 | a created session is stored, a failed creation is reported and leaves the session as it was, and either way the load is over |
| ModelLoader.ModelLoader.GenerateResponse | src/services/modelLoader.ts:47-80 | as written: without a session the call fails with 'Model not loaded'; with one, the Number tokens make `BigInt64Array.from` throw a TypeError for every non-empty prompt, which is rethrown, and only the empty prompt reaches `run` (which stands for the tensor, the session run and the decoding) |
| ModelLoader.ModelLoader.GenerateResponseIntended | src/services/modelLoader.ts:47-80 | as evidently intended, with each token converted by `BigInt`: without a session 'Model not loaded', otherwise `run` on exactly the prompt's tokens |
| ModelLoader.NoPromptReachesSession | src/services/modelLoader.ts:54-80 | as written, any two non-empty prompts give the same failure, whatever the session would answer |
| ModelLoader.IntendedSeesPrompt | src/services/modelLoader.ts:54-62 | with the intended conversion the session is run on the prompt's tokens, and different vocabulary prompts reach it as different token lists |
| ModelLoader.TokenizeRoundTrip | src/services/modelLoader.ts:54-73 | a prompt made of vocabulary characters is recovered by tokenizing and then mapping each token back to its character |
| ModelLoader.UnknownCharacter | src/services/modelLoader.ts:54-72 | a character outside the vocabulary becomes token 0, which maps back to 'a' |
| ModelLoader.Registry.constructor | src/services/modelLoader.ts:4 | no instance exists before the first `getInstance` |
| ModelLoader.Registry.GetInstance | src/services/modelLoader.ts:14-19 | the first call creates a fresh loader with the tokenizer filled; later calls return the same loader |
| ModelLoader.SameInstance | src/services/modelLoader.ts:14-19 | two calls of `getInstance` return the same loader |
| ModelLoader.SecondLoadIgnored | src/services/modelLoader.ts:32 | a second `loadModel` while the first is in progress does nothing |
| VisionSystem.DangerIssue | src/components/VisionSystem.tsx:128-132 | a detection raises a danger issue exactly when its lower-cased class is 'knife', 'scissors' or 'fire' |
| VisionSystem.Distinct | src/components/VisionSystem.tsx:136-141 | the keys of the count object are exactly the detected classes |
| VisionSystem.AnalyzeScene | src/components/VisionSystem.tsx:121-153 | the three passes push exactly the danger issues in detection order, then the count issues in key order, then the face issue |
| VisionSystem.IssuesBounds | src/components/VisionSystem.tsx:121-153 | at most one danger issue per detection, one count issue per class and one face issue; with more than one face the face issue comes last; a quiet scene gives none |
| VisionSystem.CountClasses | src/components/VisionSystem.tsx:136-139 | the `reduce` yields, for each class, its number of detections, with keys in order of first occurrence |
| VisionSystem.CountsStep | src/components/VisionSystem.tsx:137 | one more detection adds one to its class's count and leaves the other counts alone |
| VisionSystem.DangerIssuesCharacterised | src/components/VisionSystem.tsx:128-133 | a danger issue names a detected class whose lower-cased form is on the list, every such detection gives one, and detection order is kept |
| VisionSystem.DistinctHasNoDuplicates | src/components/VisionSystem.tsx:136-141 | each class appears once among the count object's keys |
| VisionSystem.CountIssuesCharacterised | src/components/VisionSystem.tsx:141-145 | a count issue is raised for a class exactly when it has more than three detections, and it states that count |
| VisionSystem.CountMessageInjective | src/components/VisionSystem.tsx:143 | two count messages that read the same name the same class |
| VisionSystem.FaceIssueLast | src/components/VisionSystem.tsx:148-150 | the face issue is raised exactly when there is more than one face, and it comes last with the number of faces |
| VisionSystem.QuietScene | src/components/VisionSystem.tsx:121-153 | no detections and at most one face give no issue |
| Whiteboard.Whiteboard.constructor | src/components/Whiteboard.tsx:16-19 | a new whiteboard has no context, an empty history and the cursor at -1 |
| Whiteboard.Whiteboard.SaveToHistory | src/components/Whiteboard.tsx:40-43 | saving drops every entry after the cursor, appends the snapshot and moves the cursor onto it, the last entry; the cursor stays within -1..length-1 |
| Whiteboard.Whiteboard.Undo | src/components/Whiteboard.tsx:45-51 | without a context or at index 0 or below nothing happens; otherwise the cursor moves back one and that entry is put on the canvas; the history is unchanged |
| Whiteboard.Whiteboard.Redo | src/components/Whiteboard.tsx:53-59 | without a context or at the last entry nothing happens; otherwise the cursor moves forward one and that entry is put on the canvas; the history is unchanged |
| Whiteboard.Whiteboard.ClearCanvas | src/components/Whiteboard.tsx:193-198 | with a context the canvas is painted blank and exactly one snapshot is saved; without one nothing happens |
| Whiteboard.Whiteboard.Mount | src/components/Whiteboard.tsx:21-38 | when the 2D context is available it is kept, the canvas is painted blank and that snapshot saved; otherwise nothing happens |
| Whiteboard.UndoThenRedo | src/components/Whiteboard.tsx:45-59 | undo then redo, with no save between, returns to the same cursor and canvas entry and leaves the history alone |
| Whiteboard.SaveThenRedo | src/components/Whiteboard.tsx:40-59 | a save discards the entries redo could reach, so redo right after it does nothing |
| Whiteboard.MountThenUndo | src/components/Whiteboard.tsx:21-51 | mounting a fresh whiteboard leaves one entry at cursor 0, so undo does nothing yet |
| TodoList.AddTodo | src/components/TodoList.tsx:14-26 | a blank input (only whitespace) changes nothing; otherwise exactly one open todo with the trimmed, non-empty text and id `now` is appended after the unchanged list and the input is cleared |
| TodoList.ToggleTodo | src/components/TodoList.tsx:28-32 | toggling keeps the number of todos |
| TodoList.DeleteTodo | src/components/TodoList.tsx:34-36 | deleting never adds a todo: what is left came from the list and has another id |
| TodoList.ClearCompleted | src/components/TodoList.tsx:38-40 | clearing never adds a todo: what is left came from the list and is open |
| TodoList.ToggleOnlyMatching | src/components/TodoList.tsx:28-32 | toggling keeps length, order, ids and texts, and flips `completed` exactly on the todos with the id |
| TodoList.ToggleTwice | src/components/TodoList.tsx:28-32 | toggling the same id twice restores the list |
| TodoList.DeleteExactly | src/components/TodoList.tsx:34-36 | deleting keeps exactly the todos with another id, in order; it distributes over concatenation and a second delete changes nothing |
| TodoList.ClearExactly | src/components/TodoList.tsx:38-40 | clearing keeps exactly the open todos, in order; it distributes over concatenation and is idempotent |
| TodoList.AddThenDelete | src/components/TodoList.tsx:14-36 | adding under a fresh id and deleting that id gives back the original list |
| TodoList.AddThenClear | src/components/TodoList.tsx:14-40 | a freshly added todo is open and survives clearing the completed ones |
| NotesManager.RewriteOnlyMatching | src/components/NotesManager.tsx:41-45 | the `map` in `saveNote` keeps length, order and ids, gives the notes with the active id the editor's title and content and the save time, and leaves every other note as it was |
| NotesManager.WithoutExactly | src/components/NotesManager.tsx:51 | deleting keeps exactly the notes whose id differs, in their order (filtering distributes over concatenation) |
| NotesManager.FilteredNotesIff | src/components/NotesManager.tsx:59-62 | a note is listed exactly when its lower-cased title or content contains the lower-cased search term at some offset |
| NotesManager.EmptySearchKeepsAll | src/components/NotesManager.tsx:59-62 | an empty search term lists every note, in order |
| NotesManager.NotesManager.constructor | src/components/NotesManager.tsx:12-19 | the list starts as the saved one or empty, with nothing active and empty editor fields |
| NotesManager.NotesManager.CreateNote | src/components/NotesManager.tsx:25-36 | a 'New Note' with empty content is put first, made active and loaded into the editor; its id is the first clock reading in decimal and its modification time the second, which may differ |
| NotesManager.NotesManager.SelectNote | src/components/NotesManager.tsx:96-100 | clicking a note makes it active and loads its title and content into the editor |
| NotesManager.NotesManager.SetEditTitle | src/components/NotesManager.tsx:138 | typing a title changes only the title field |
| NotesManager.NotesManager.SetEditContent | src/components/NotesManager.tsx:144 | typing content changes only the content field |
| NotesManager.NotesManager.SaveNote | src/components/NotesManager.tsx:38-48 | without an active note nothing happens; otherwise the notes with its id are rewritten from the editor and the active note takes the editor's title and content, keeping its old time |
| NotesManager.NotesManager.DeleteNote | src/components/NotesManager.tsx:50-57 | the notes with the id are removed; the editor is cleared exactly when the active note had that id |
| NotesManager.CreateThenDelete | src/components/NotesManager.tsx:25-57 | creating a note under a fresh id and deleting it restores the list and leaves the editor empty |
| NotesManager.RetitleNote | src/components/NotesManager.tsx:38-138 | selecting, retitling and saving changes the notes sharing the selected id, and only those |
| Clock.Minutes | src/components/Timer.tsx:31 | `Math.floor(seconds / 60)` is the whole number of minutes: m·60 ≤ s < m·60 + 60, also for negative s |
| Clock.Seconds | src/components/Timer.tsx:32 | JavaScript's `%` keeps the sign of the dividend: the remainder lies strictly between -60 and 60, has the sign of s, and is s itself when |s| < 60 |
| Clock.FormatTime | src/components/Timer.tsx:30-34 | the display is never shorter than `mm:ss` and always holds a colon |
| Clock.PaddedTwoDigits | src/components/Timer.tsx:33 | a number from 0 to 99 pads to exactly two digits that read back as the number |
| Clock.FormatTimeRoundTrip | src/components/Timer.tsx:30-34 | below 100 minutes the display is five characters, digits around a colon, and reads back as the same number of seconds |
| Clock.Layout | src/components/Timer.tsx:33 | two two-digit fields around ':' put the digits at positions 0, 1, 3, 4 and read as minutes·60 + seconds |
| Clock.FormatTimeInjective | src/components/Timer.tsx:30-34 | two times from 0 to 99:59 never show the same text |
| Clock.FormatTimeWidens | src/components/Timer.tsx:31-33 | from 100 minutes on, `padStart` does not truncate and the display is longer than five characters |
| Clock.FormatTimeNegative | src/components/Timer.tsx:31-33 | a time between -59 and -1 seconds shows "-1:-" and the digits of its magnitude |
| Timer.Timer.constructor | src/components/Timer.tsx:5-7 | the timer starts at 0, stopped, with the minutes field empty |
| Timer.Timer.Tick | src/components/Timer.tsx:12-23 | a tick acts only while running with time left; at one second or less it lands on 0 and stops; otherwise it takes one second off; a non-negative time never grows |
| Timer.Timer.HandleStart | src/components/Timer.tsx:36-42 | with minutes typed and the timer stopped at 0, the time becomes the parsed minutes times 60; the timer runs afterwards in every case |
| Timer.Timer.HandleReset | src/components/Timer.tsx:44-48 | reset stops the timer at 0 and empties the minutes field |
| Timer.Timer.TypeMinutes | src/components/Timer.tsx:68-76 | typing changes the minutes field only while it is shown (stopped at 0) and touches nothing else |
| Timer.Timer.PlayButton | src/components/Timer.tsx:79-81 | the button as written only flips `isRunning`, and does nothing while disabled (at 0 with nothing typed) |
| Timer.Timer.StartPauseButton | src/components/Timer.tsx:36-81 | the corrected button: pause while running, otherwise start, loading the typed minutes when at 0 |
| Timer.OperateAsWired | src/components/Timer.tsx:12-80 | as wired, no sequence of clicks, keystrokes, resets and seconds moves a timer at 0 off "00:00" |
| Timer.CountdownAsIntended | src/components/Timer.tsx:14-42 | with the corrected button, typing m > 0 minutes and pressing play runs exactly m·60 ticks down to 0 and stops the timer |
| Pomodoro.Pomodoro.constructor | src/components/Pomodoro.tsx:5-7 | a new timer is a stopped focus period with the full 25 minutes |
| Pomodoro.Pomodoro.Step | src/components/Pomodoro.tsx:12-30 | running with time left takes a second off; at 0, running or not, focus becomes a full 5-minute break and a break a full 25-minute focus; the time stays within its phase's length |
| Pomodoro.Pomodoro.ToggleTimer | src/components/Pomodoro.tsx:41-43 | toggling flips `isRunning` and nothing else |
| Pomodoro.Pomodoro.ResetTimer | src/components/Pomodoro.tsx:45-49 | reset gives a stopped focus period with the full 25 minutes |
| Pomodoro.FinishFocus | src/components/Pomodoro.tsx:12-19 | a running focus period with t seconds left turns into a full, running break after exactly t + 1 steps |
| Pomodoro.FullCycle | src/components/Pomodoro.tsx:12-49 | reset, start, and running out focus and then break brings the timer back to a full, running focus period |
| Pomodoro.SwitchWhileStopped | src/components/Pomodoro.tsx:16-19 | the switch at 0 also happens while stopped: a stopped focus period at 0 becomes a full break |
| Pomodoro.DisplayReadsBack | src/components/Pomodoro.tsx:51-55 | every time a valid timer can hold shows as five characters `mm:ss`, and reading the minutes and seconds back gives that time |
| Calculator.OperatorOf | src/components/Calculator.tsx:52-58 | exactly the four operator keys reach `handleOperator`; '÷' sends '/', '×' sends '*', '+' and '-' send themselves |
| Calculator.TracksStep | src/components/Calculator.tsx:8-16 | after any digit or operator key the display is '0' or the tail end of the equation, if it was before |
| Calculator.Calculator.constructor | src/components/Calculator.tsx:5-6 | the display starts at '0' and the equation empty |
| Calculator.Calculator.HandleNumber | src/components/Calculator.tsx:8-11 | a digit replaces a lone '0' on the display, is appended otherwise, and is always appended to the equation |
| Calculator.Calculator.HandleOperator | src/components/Calculator.tsx:13-16 | an operator resets the display to '0' and appends itself between spaces to the equation |
| Calculator.Calculator.Calculate | src/components/Calculator.tsx:18-28 | a successful evaluation puts its result in both display and equation; a throwing one shows 'Error' and empties the equation |
| Calculator.Calculator.Clear | src/components/Calculator.tsx:30-33 | clear restores the initial display and equation |
| Calculator.Calculator.Press | src/components/Calculator.tsx:48-58 | '=' calculates; any other key appends its token to the equation and moves the display as a digit or an operator does |
| Calculator.PressAll | src/components/Calculator.tsx:8-16 | a run of keys without '=' appends their tokens, in order, to the equation, and the display stays in step with the equation |
| Calculator.EqualsKeepsTracking | src/components/Calculator.tsx:18-28 | after '=' the display matches the equation exactly when evaluation succeeded |
| Calculator.DigitAfterError | src/components/Calculator.tsx:9-26 | after an error the next digit is appended to 'Error' on the display ("Error5") while the equation restarts at the digit |
| PasswordGenerator.Pick | src/components/PasswordGenerator.tsx:29 | `Math.floor(Math.random() * chars.length)` is always a valid index into the character set |
| PasswordGenerator.CharSetMembership | src/components/PasswordGenerator.tsx:14-23 | a character is available exactly when it belongs to one of the enabled classes |
| PasswordGenerator.CharSetSize | src/components/PasswordGenerator.tsx:14-25 | the set holds 26, 26, 10 and 26 characters per enabled class and is empty exactly when every class is off |
| PasswordGenerator.AssembleCharSet | src/components/PasswordGenerator.tsx:19-23 | the `chars +=` steps give the enabled classes in the order upper, lower, digits, symbols |
| PasswordGenerator.Draw | src/components/PasswordGenerator.tsx:27-30 | the loop yields exactly `length` characters, the k-th chosen by the k-th random draw, each from the set |
| PasswordGenerator.PasswordGenerator.constructor | src/components/PasswordGenerator.tsx:5-10 | no password yet, length 16, every class enabled |
| PasswordGenerator.PasswordGenerator.SetLength | src/components/PasswordGenerator.tsx:82-87 | the slider sets a length within 8..32 and changes nothing else |
| PasswordGenerator.PasswordGenerator.SetClass | src/components/PasswordGenerator.tsx:94-127 | each check box switches its own class and no other state |
| PasswordGenerator.PasswordGenerator.GeneratePassword | src/components/PasswordGenerator.tsx:13-33 | with every class off the password is kept; otherwise it becomes `length` characters of the current set, the k-th chosen by the k-th draw |
| Translator.TranslationRoundTrip | src/components/Translator.tsx:31 | the simulated result "Translated: " + text gives the text back, and distinct texts never share a result |
| Translator.Translator.constructor | src/components/Translator.tsx:5-9 | empty texts, English to Spanish, no request in progress |
| Translator.Translator.SetSourceText | src/components/Translator.tsx:88-90 | typing replaces the source text and nothing else |
| Translator.Translator.SetSourceLang | src/components/Translator.tsx:56-58 | the source select replaces the source language and nothing else |
| Translator.Translator.SetTargetLang | src/components/Translator.tsx:75-77 | the target select replaces the target language and nothing else |
| Translator.Translator.StartTranslate | src/components/Translator.tsx:24-27 | a blank source (after trimming) or a request in progress stops the handler with nothing changed; otherwise the flag rises and the current text is captured |
| Translator.Translator.FinishTranslate | src/components/Translator.tsx:30-36 | the result for the captured text replaces the translation and the flag drops, leaving text and languages as they are |
| Translator.Translator.SwapLanguages | src/components/Translator.tsx:39-45 | the two languages trade places and so do the source text and the translation |
| Translator.SwapTwice | src/components/Translator.tsx:39-45 | swapping twice restores both languages and both texts |
| Translator.TranslateWhileEditing | src/components/Translator.tsx:24-90 | a request reports the text it started with, even when the box is edited while it waits |
| Translator.DoubleClickIgnored | src/components/Translator.tsx:25 | a second click while a request is in progress changes nothing |
| LanguageTranslator.TranslationRoundTrip | src/components/LanguageTranslator.tsx:31 | the result is the header naming both languages followed by the text; the text reads back after the header and distinct texts translate differently |
| LanguageTranslator.LanguageTranslator.constructor | src/components/LanguageTranslator.tsx:5-9 | empty texts, English to Spanish, no request in progress |
| LanguageTranslator.LanguageTranslator.SetText | src/components/LanguageTranslator.tsx:88-90 | typing replaces the source text and nothing else |
| LanguageTranslator.LanguageTranslator.SetSourceLang | src/components/LanguageTranslator.tsx:56-58 | the source select replaces the source language and nothing else |
| LanguageTranslator.LanguageTranslator.SetTargetLang | src/components/LanguageTranslator.tsx:75-77 | the target select replaces the target language and nothing else |
| LanguageTranslator.LanguageTranslator.StartTranslate | src/components/LanguageTranslator.tsx:24-27 | blank text or a request in progress stops the handler with nothing changed; otherwise the flag rises and text and both languages are captured |
| LanguageTranslator.LanguageTranslator.FinishTranslate | src/components/LanguageTranslator.tsx:30-36 | the result for the captured request replaces the translation and the flag drops |
| LanguageTranslator.LanguageTranslator.SwapLanguages | src/components/LanguageTranslator.tsx:39-45 | the languages trade places, the translation moves into the source box and the translation is cleared |
| LanguageTranslator.SwapTwice | src/components/LanguageTranslator.tsx:39-45 | two swaps restore both languages but leave both texts empty |
| LanguageTranslator.SwapWhileTranslating | src/components/LanguageTranslator.tsx:24-45 | a request names the languages chosen when it started, even if they are swapped while it waits |
| Text.Trim | src/components/TodoList.tsx:15-21 | `trim` gives the empty string exactly when the input is all whitespace, never starts or ends with whitespace, and leaves an already trimmed string alone |
| Text.TrimIdempotent | src/components/TodoList.tsx:21 | trimming an already trimmed todo text changes nothing |
| Text.IncludesIff | src/services/osintService.ts:12-14 | `includes` holds exactly when the needle occurs at some offset of the haystack |
| Text.ParseIntNeedsDigit | src/components/Timer.tsx:38 | `parseInt` of text without any digit is NaN (`None`) |
| Text.ParseIntStopsAtNonDigit | src/components/Timer.tsx:38 | `parseInt` reads a leading run of digits and ignores whatever follows a non-digit ("5m" is 5) |
| Text.ParseIntNegative | src/components/Timer.tsx:38 | `parseInt` accepts a leading minus sign and negates the digits after it |
| Text.ParseIntOfIntToString | src/components/Timer.tsx:38 | `parseInt` reads back every integer written in decimal |
| Text.PadStart | src/components/Timer.tsx:30-34 | `padStart` keeps the string as the suffix and fills only the missing width with the fill character |

## Left out

- Rendering: JSX, styles, animation, and canvas drawing are not modelled. This covers `drawStep` and the step-by-step teaching effects at src/components/Whiteboard.tsx:60-110. A canvas snapshot is an opaque value.
- ONNX inference: creating the session and running it are parameters. Building the tensor, running the session and greedy decoding over the `Float32Array` logits (src/services/modelLoader.ts:57-74) are the parameter `run`; decoding uses floating point and is not modelled. The conversion `BigInt64Array.from` at line 57 is modelled, because it decides whether `run` is reached. The text of its TypeError is a fixed message, since engines word it differently.
- Floating point: detection scores reach the model already rounded to whole percents. `Math.round(score * 100)` is not modelled.
- Webcam and tfjs detection (`detectObjects` in src/components/VisionSystem.tsx) is outside the model. `analyzeScene` takes the detections and the face count as inputs.
- Gemini is an input: the language model's reply text is a parameter. The prompt text of `generateLesson` (src/services/lessonService.ts:66-111) only goes to that service and is not modelled.
- A draw-step field is converted by `Number` or the colour test; the conversion throws a TypeError exactly for an object with its own `toString` key, or an array holding one (`LessonService.Throws`), and the other checks in validation do not convert. Which TypeError message an engine prints is not modelled: every throw leads to the same fallback.
- JSON numbers are integers in the model. `Number()` of a string is modelled for optionally signed decimal digits and blanks only; hexadecimal, exponents, fractions and `Infinity` all read as not-a-number. An array is read through its string form (`LessonService.JsString`), so `[5000]` is 5000. Number-to-string conversion is plain decimal; the exponent form JavaScript uses from 10^21 on is not modelled.
- `JSON.parse`, `JSON.stringify` and `localStorage` are taken as exact: a saved value is read back as the value written. Writing to storage after each change (src/components/NotesManager.tsx:21-23) is not modelled.
- Restoring saved values does no validation, as in the source. The model does not invent a failure path for malformed saved JSON.
- The object-prototype quirk is not modelled: `users[username]` (src/contexts/AuthContext.tsx:49) and `acc[pred.class]` (src/components/VisionSystem.tsx:137) would also find inherited keys such as `constructor`. The user table and the count object are finite maps of their own keys.
- `Object.entries` key order is first-insertion order in the model. JavaScript lists integer-like keys first, and class names are never integer-like in practice.
- `toLowerCase` is ASCII only; Unicode case mapping is not modelled.
- `trim` treats the ASCII whitespace characters, the no-break space, the byte-order mark and the line and paragraph separators as whitespace. The other Unicode space separators are not modelled.
- Timing is not modelled: React batching, effect scheduling, `setInterval`, `setTimeout`, `requestAnimationFrame` and stale closures. For example, `saveToHistory` reads `historyIndex` from its closure at src/components/Whiteboard.tsx:41. Each handler is one atomic step, and each interval firing is one explicit tick.
- `Timer.Timer.HandleStart`: typed text that `parseInt` cannot read leaves the time unchanged, where the source stores `NaN`. The `parseInt` model reads decimal digits only and ignores the `0x` prefix.
- `Date.now()` values are parameters, one per reading: `createNote` reads the clock twice and takes two. Nothing guarantees that ids made from them are unique, so lemmas that need a fresh id require one.
- `new Function` evaluation in `Calculator.calculate` is a parameter that gives the result text or a failure. JavaScript expression semantics are not modelled.
- Writing to the clipboard (src/components/PasswordGenerator.tsx:35-39) is a browser side effect and is not modelled.
- `Math.random` draws are a sequence of reals in [0, 1) given to `generatePassword`.
- The notes search term is a plain parameter of the filter and not a state field.
- The other dashboard components and hooks are not part of this model: presentation, random simulations, media, speech, weather and the camera services.

## Findings

| source | as written | input that shows it | evidently intended | confidence | as-written member | corrected member |
|---|---|---|---|---|---|---|
| src/components/Timer.tsx:79-81 | the play button only flips `isRunning`; `handleStart` (lines 36-42) is never called, so the typed minutes are never loaded and the interval (lines 14-23) never starts counting at 0 | on a fresh timer, type "5" and press play: the display stays "00:00" | play calls `handleStart`, and pause stops the timer | not executed | `Timer.OperateAsWired` | `Timer.CountdownAsIntended` |
| src/services/modelLoader.ts:57 | `BigInt64Array.from(tokens)` receives the tokens as Numbers; converting a Number to a BigInt throws a TypeError, which lines 77-80 rethrow, so the session never runs on a non-empty prompt | with the model loaded, `generateResponse("hi")` fails with the TypeError instead of running the session | convert each token with `BigInt` first (`tokens.map(BigInt)`), so the session runs on the prompt's tokens | not executed | `ModelLoader.NoPromptReachesSession` | `ModelLoader.IntendedSeesPrompt` |
