# AI counselor prototype: a verified model of its core logic

This project models the parts of the AI career-counselor prototype that hold real logic.
Everything else in the prototype is UI or a thin call to the hosted database, auth service or chat model.

- **Chat widget** (`Chatbot.js`, `handleSubmit`):
  - the input guard;
  - the user message and the empty assistant placeholder;
  - the outgoing history without the canned greeting;
  - the streamed body read chunk by chunk and line by line (`data: ` frames, the `[DONE]` sentinel, the JSON delta);
  - the accumulator written into the placeholder after every parsed frame;
  - the apology on failure;
  - the completion callback.
- **Skill lists** (`App.js`, `Dashboard.js`):
  - fetched rows formatted to `{name, proficiency}` and sorted by name;
  - the App's exact-name upsert;
  - the Dashboard's trimmed, case-insensitive add;
  - the names handed to `addSkill` after extraction.
- **Roadmap form** (`Roadmap.js`):
  - goal validation;
  - the comma-separated skills parser;
  - the `title: description` rendering;
  - the form states and the reset.
- **Counselor function** (`ai-counselor/index.ts`):
  - the CORS preflight;
  - required fields and the signed-in user;
  - the prompt (system prompt, the history when it is an array, the query);
  - the two `chat_messages` rows;
  - the `{reply}` or `{error}` response.

Modules:

- `Wrappers`: `Option` and `Result`.
- `Strings`: JavaScript `trim`, one-character `split`, `join`, `startsWith` and `toLowerCase`, with their laws.
- `Conversation`: messages, the greeting filter, and the last-message overwrite.
- `ChatStream`: a pure specification of what the widget reads out of a body.
- `Chatbot`: the widget as a class. Its loops are proved against `ChatStream`.
- `SkillList`: skill records, row formatting, and a stable sort under an abstract collation.
- `AppSkills`: the App's skill state.
- `Dashboard`: the Dashboard's skill state.
- `Roadmap`: the parsers and the form class.
- `AiCounselor`: the `serve` handler.

Calls into the database, the auth service, `fetch`, `supabase.functions.invoke` and the chat model are parameters. Each parameter is the outcome that step has when it is reached:
- an `Option` or `Result` value;
- the list of text chunks a body yields and how it ends;
- a function from prompt to reply.

`JSON.parse` is a parameter of type `string -> Option<Delta>`. `localeCompare` is a parameter `le` that is assumed to be a total preorder (`IsCollation`).

## Model

| member | source | states |
|---|---|---|
| Strings.TrimSpec | frontend/src/Dashboard.js:40 | `trim` leaves no whitespace at either end and removes only a whitespace prefix and suffix |
| Strings.Trim | frontend/src/components/Chatbot.js:3 | `trim()` gives a string no longer than its input with no whitespace at either end (ECMAScript WhiteSpace and LineTerminator) |
| Strings.TrimEmptyIffBlank | frontend/src/components/Chatbot.js:3 | `!s.trim()` holds exactly when the input is whitespace only (empty included) |
| Strings.TrimOfTrimmed | frontend/src/components/Roadmap.js:26 | trimming a string with no whitespace at its ends changes nothing |
| Strings.Split | frontend/src/components/Chatbot.js:43 | `split` yields one more piece than there are separators, and no piece holds the separator |
| Strings.SplitAppend | frontend/src/components/Chatbot.js:43 | splitting `a + sep + b` gives the pieces of `a` followed by those of `b` |
| Strings.SplitWithoutSeparator | frontend/src/components/Chatbot.js:43 | a string without the separator splits into itself alone |
| Strings.SplitJoin | frontend/src/components/Roadmap.js:41 | joining non-empty lists of separator-free pieces, then splitting, gives back the pieces |
| Strings.JoinSplit | frontend/src/components/Roadmap.js:41 | splitting, then joining with the same separator, gives back the string |
| Strings.Join | frontend/src/components/Roadmap.js:41 | `join` of no pieces is the empty string; otherwise the text begins with the first piece (the round trips are `SplitJoin` and `JoinSplit`) |
| Strings.ToLower | frontend/src/Dashboard.js:41 | `toLowerCase` keeps the length, turns each ASCII capital into its small letter (code point + 32), and leaves every other character as it is |
| Strings.LowerCharSame | frontend/src/Dashboard.js:41 | two characters lower-case alike exactly when they are the same letter up to ASCII case |
| Strings.ToLowerEqualIff | frontend/src/Dashboard.js:41 | `a.toLowerCase() === b.toLowerCase()` exactly when the strings have the same length and agree position by position up to ASCII case |
| Strings.StartsWith | frontend/src/components/Chatbot.js:46 | `startsWith`: the prefix is no longer than the string and equals its first characters |
| Conversation.OutgoingHistory | frontend/src/components/Chatbot.js:24 | the history sent is no longer than the conversation and holds no assistant greeting |
| Conversation.IsGreeting | frontend/src/components/Chatbot.js:24 | the filter drops a message exactly when its role is assistant and its content is the greeting text |
| Conversation.OutgoingHistoryCounts | frontend/src/components/Chatbot.js:24 | exactly the assistant messages whose content is the greeting are dropped; every other message keeps its multiplicity, including a user message with the greeting text |
| Conversation.OutgoingHistoryAppend | frontend/src/components/Chatbot.js:24 | the filter keeps order: filtering a concatenation concatenates the filtered parts |
| Conversation.GreetingOnlyHistoryIsEmpty | frontend/src/components/Chatbot.js:24 | a conversation holding only the greeting is sent as an empty history |
| Conversation.WithLastContent | frontend/src/components/Chatbot.js:55-59 | the overwrite keeps the length, keeps every earlier message, and gives the last message the new content with its role kept |
| Conversation.WithLastContentTwice | frontend/src/components/Chatbot.js:55-59 | a second overwrite of the last message replaces the first: only the latest accumulator is kept |
| Conversation.WithLastContentSame | frontend/src/components/Chatbot.js:55-59 | writing the content the last message already holds changes nothing |
| ChatStream.Payload | frontend/src/components/Chatbot.js:46-47 | the payload is the line without its `data: ` prefix |
| ChatStream.DeltaText | frontend/src/components/Chatbot.js:52 | `?.delta?.content \|\| ''`: a missing content reads as the empty text |
| ChatStream.Classify | frontend/src/components/Chatbot.js:45-53 | a line counts only with the `data: ` prefix; it is the sentinel exactly when its payload trims to `[DONE]`; otherwise it is a frame exactly when the payload parses, and the frame's text is the delta content or `''` |
| ChatStream.ClassifyAll | frontend/src/components/Chatbot.js:45 | one classification per line, in line order (`ClassifyAllAt`) |
| ChatStream.ClassifyAllAt | frontend/src/components/Chatbot.js:45 | the lines of a chunk are classified one by one, each on its own |
| ChatStream.KindDeltas | frontend/src/components/Chatbot.js:45-62 | the `for` loop over a chunk's lines as a reference definition: the frame texts in line order up to the first sentinel, no more texts than lines (`KindDeltasAppend`, `DoneEndsChunk`, `IgnoredLineSkipped`) |
| ChatStream.ChunkDeltas | frontend/src/components/Chatbot.js:42-64 | one chunk split on `'\n'` and read line by line; at most one delta per line |
| ChatStream.StreamDeltas | frontend/src/components/Chatbot.js:38-65 | the `while` loop over `reader.read()` as a reference definition: each chunk's deltas in chunk order (`StreamDeltasAppend`, `SingleChunk`, `SplitFrameLost`) |
| ChatStream.ConcatAppend | frontend/src/components/Chatbot.js:53 | the accumulator over two runs of deltas is the first accumulator followed by the second |
| ChatStream.Concat | frontend/src/components/Chatbot.js:53 | `accumulatedContent += delta` as a reference definition: the deltas concatenated in order (`ConcatAppend`, `ConcatEmptyIff`) |
| ChatStream.ConcatEmptyIff | frontend/src/components/Chatbot.js:53 | the accumulator is empty exactly when every delta is empty |
| ChatStream.Snapshots | frontend/src/components/Chatbot.js:53-59 | one placeholder content per parsed frame, the last being the final accumulator |
| ChatStream.StreamDeltasAppend | frontend/src/components/Chatbot.js:38-48 | the deltas of a body are those of its first chunks followed by those of the rest; a sentinel does not stop later chunks |
| ChatStream.KindDeltasAppend | frontend/src/components/Chatbot.js:45-48 | the later lines of a chunk are read only when the earlier ones hold no sentinel |
| ChatStream.DoneEndsChunk | frontend/src/components/Chatbot.js:48 | the sentinel contributes nothing, and the lines after it in the same chunk are skipped |
| ChatStream.IgnoredLineSkipped | frontend/src/components/Chatbot.js:50-62 | a malformed or non-data line leaves the deltas as if it were absent, and reading goes on |
| ChatStream.KindDeltasStep | frontend/src/components/Chatbot.js:45-59 | one more line before any sentinel adds its delta text when it is a frame and nothing otherwise |
| ChatStream.ClassifyDataLine | frontend/src/components/Chatbot.js:46-53 | a `data: ` line whose payload is not the sentinel is what the parser makes of the payload |
| ChatStream.EncodedFrameStep | frontend/src/components/Chatbot.js:43-53 | one well-formed frame with its blank separator line contributes its delta, then the rest of the chunk is read |
| ChatStream.EncodedFramesYieldDeltas | frontend/src/components/Chatbot.js:42-53 | frames encoded in one chunk yield exactly their delta texts, and the accumulator is their in-order concatenation |
| ChatStream.OneLineChunk | frontend/src/components/Chatbot.js:42-43 | a chunk of one line, with or without its newline, is read as that line |
| ChatStream.WholeFrameRead | frontend/src/components/Chatbot.js:42-53 | a whole frame line in a chunk of its own contributes its delta |
| ChatStream.CutFrameIgnored | frontend/src/components/Chatbot.js:42-62 | the two halves of a frame cut by a chunk boundary contribute nothing |
| ChatStream.SplitFrameLost | frontend/src/components/Chatbot.js:42-62 | a frame split over two reads is lost, while the same frame in one read contributes its delta |
| ChatStream.SingleChunk | frontend/src/components/Chatbot.js:38-43 | a body of one chunk yields that chunk's deltas |
| ChatStream.SnapshotsAt | frontend/src/components/Chatbot.js:53-59 | one placeholder content per parsed frame; the i-th is the accumulator after the first i+1 frames |
| ChatStream.AppendDelta | frontend/src/components/Chatbot.js:53-59 | one more parsed frame extends the accumulator by its text and records the new accumulator as the next placeholder content |
| ChatStream.SnapshotsGrow | frontend/src/components/Chatbot.js:53-59 | one placeholder content per parsed frame; the i-th is the accumulator after i+1 frames, and each is a prefix of every later one |
| Chatbot.LastShownIsFinal | frontend/src/components/Chatbot.js:55-59 | the last content written into the placeholder is the content it is left with |
| Chatbot.Shown | frontend/src/components/Chatbot.js:28-78 | the contents written into the placeholder: one per parsed frame, then the apology on a thrown error; only the apology on a non-ok status or a network error |
| Chatbot.FinalContent | frontend/src/components/Chatbot.js:28-78 | the content the placeholder is left with: the concatenated deltas on success, the apology otherwise (`LastShownIsFinal`) |
| Chatbot.NoDeltasKeepMessages | frontend/src/components/Chatbot.js:45-64 | a chunk with no parsed frame leaves the conversation and the written contents as they were |
| Chatbot.ChatState.Send | frontend/src/components/Chatbot.js:3-8 | a blank input or a submit while loading changes nothing and sends nothing; otherwise exactly `{user, query}` and `{assistant, ''}` are appended, the input is cleared, loading is set, and the request carries the query and the greeting-free history of the conversation before the submit |
| Chatbot.ChatState.ReadLine | frontend/src/components/Chatbot.js:46-62 | one line: the sentinel ends the chunk; a parsed frame adds its delta to the accumulator, writes the accumulator into the last message and records it; any other line changes nothing |
| Chatbot.ChatState.ReadChunk | frontend/src/components/Chatbot.js:42-64 | given that the last message holds the accumulator, one chunk adds exactly its deltas to it; the last message then holds the new accumulator and one snapshot per parsed frame is recorded |
| Chatbot.ChatState.ReadBody | frontend/src/components/Chatbot.js:36-65 | reading every chunk in turn leaves the concatenated deltas of the whole body in the placeholder and records exactly its snapshots |
| Chatbot.ChatState.Receive | frontend/src/components/Chatbot.js:28-81 | the placeholder ends as the concatenated deltas of all chunks, or as the apology on a non-ok status or a thrown error; earlier messages are untouched; the contents written are exactly the snapshots plus the apology on failure; on success the callback gets `query + " " + reply`; loading ends |
| Chatbot.ChatState.HandleSubmit | frontend/src/components/Chatbot.js:1-82 | a rejected submit changes nothing; an accepted one appends exactly the user message and an assistant message holding the reply or the apology, and ends with the input cleared and loading off |
| SkillList.Insert | frontend/src/App.js:94 | inserting into a sorted list gives a sorted list with the same entries plus the new one |
| SkillList.SortByName | frontend/src/Dashboard.js:28 | the result is sorted by name under the collation and is a permutation of the input |
| SkillList.SortOfSorted | frontend/src/App.js:94 | a list already sorted comes back unchanged |
| SkillList.SortKeepsEntries | frontend/src/App.js:94 | sorting keeps the length and exactly the same entries |
| SkillList.FormatRows | frontend/src/App.js:89-92 | rows map one-to-one, in order, to `{name: skills.name, proficiency}`; a row whose joined skill is null makes the whole map fail |
| SkillList.FetchedSkills | frontend/src/Dashboard.js:20-29 | a list is put in place only when the query succeeds with data whose rows all format; it is sorted, and it is a permutation of the formatted rows |
| AppSkills.FirstIndexOfName | frontend/src/App.js:142 | `findIndex`: none exactly when no entry has the name; otherwise an entry with that name and no earlier one |
| AppSkills.UpsertSkill | frontend/src/App.js:141-153 | the result is always sorted and holds the new entry; with a match, the length is kept and the first match is swapped for the new entry; without one, the length grows by one and the entry is added |
| AppSkills.ReplaceCounts | frontend/src/App.js:145-146 | assigning one index swaps exactly one entry for the new one |
| AppSkills.UpsertKeepsOthers | frontend/src/App.js:141-153 | an entry with another name is in the result exactly when it was in the list before |
| AppSkills.UpsertSameIsIdentity | frontend/src/App.js:142-147 | re-recording the proficiency the first match already has leaves a sorted list unchanged |
| AppSkills.AppState.constructor | frontend/src/App.js:18-20 | no session, no skills, loading |
| AppSkills.AppState.LoadSkills | frontend/src/App.js:68-105 | without a session nothing is fetched and only the loading flag is cleared; with one the fetched, formatted, sorted list replaces the old one when there is one; loading is off in every case |
| AppSkills.AppState.AddOrUpdateSkill | frontend/src/App.js:108-157 | the list changes, by `UpsertSkill`, exactly when the skill is found or created, there is a session, and the link upsert succeeds; otherwise it is untouched |
| Dashboard.SomeNameMatches | frontend/src/Dashboard.js:41 | `some` holds exactly when an entry's name equals the given one after lower-casing both |
| Dashboard.AddKeepsDistinct | frontend/src/Dashboard.js:41-62 | appending a name that no entry matches up to case, then sorting, keeps the list free of case-insensitive duplicates |
| Dashboard.SkillsToAdd | frontend/src/Dashboard.js:68-82 | `addSkill` runs once per extracted name, in order, exactly when extraction succeeds with a non-empty list |
| Dashboard.DashboardState.constructor | frontend/src/Dashboard.js:10-11 | no skills, loading |
| Dashboard.DashboardState.FetchUserSkills | frontend/src/Dashboard.js:13-37 | without a user the list is kept; with one the fetched list replaces it when there is one, and a failed query or a row that cannot be formatted keeps it; loading is off in every case |
| Dashboard.DashboardState.AddSkill | frontend/src/Dashboard.js:39-66 | the name is trimmed; a case-insensitive match changes nothing; the proficiency defaults to 1; when the user, the lookup or create, and the link insert all succeed, the list is the old list plus the trimmed entry, sorted, one longer; otherwise it is untouched |
| Roadmap.TrimEach | frontend/src/components/Roadmap.js:26 | the trimmed list has one entry per piece |
| Roadmap.KeepNonEmpty | frontend/src/components/Roadmap.js:26 | the filter keeps only non-empty pieces, each taken from the input |
| Roadmap.ParseSkills | frontend/src/components/Roadmap.js:26 | at most one skill more than there are commas |
| Roadmap.ParsedSkillShape | frontend/src/components/Roadmap.js:26 | every parsed skill is non-empty, trimmed and comma-free |
| Roadmap.TrimEachOfTrimmed | frontend/src/components/Roadmap.js:26 | `map(trim)` changes no piece that has no whitespace at its ends |
| Roadmap.KeepNonEmptyAppend | frontend/src/components/Roadmap.js:26 | the filter keeps order over a concatenation |
| Roadmap.ParseSkillsAppend | frontend/src/components/Roadmap.js:26 | the skills of `a,b` are those of `a` then those of `b`: input order is kept |
| Roadmap.ParseSkillsJoin | frontend/src/components/Roadmap.js:26 | non-empty, trimmed, comma-free names joined with commas parse back to the same list |
| Roadmap.KeepsAllNonEmpty | frontend/src/components/Roadmap.js:26 | a list of non-empty strings passes the filter whole |
| Roadmap.TrimmedCharsComeFromInput | frontend/src/components/Roadmap.js:26 | `trim` introduces no character that was not in its input |
| Roadmap.StepLines | frontend/src/components/Roadmap.js:41 | one rendered line per step |
| Roadmap.StepLine | frontend/src/components/Roadmap.js:41 | the line is the title, `": "`, then the description, each recoverable from its position |
| Roadmap.RoadmapText | frontend/src/components/Roadmap.js:41 | the text is empty exactly when there are no steps |
| Roadmap.RoadmapTextLines | frontend/src/components/Roadmap.js:41 | when no title or description holds a line break, the roadmap text splits back into the `title: description` lines in step order |
| Roadmap.RoadmapForm.constructor | frontend/src/components/Roadmap.js:7-12 | the empty form, shown, not loading |
| Roadmap.RoadmapForm.Submit | frontend/src/components/Roadmap.js:14-26 | a blank goal sets only "Please enter a goal." and sends nothing; otherwise loading is set, error and roadmap are cleared, the form hides, and the request carries the goal and the parsed skills |
| Roadmap.RoadmapForm.Complete | frontend/src/components/Roadmap.js:28-54 | a returned roadmap is shown and the callback gets the goal and raw skills text captured at submit, then the roadmap text, joined by spaces, even if the form was reset meanwhile; a failed call or a missing roadmap sets "Failed to generate roadmap. Please try again." and leaves the roadmap as it was; loading ends |
| Roadmap.RoadmapForm.HandleGenerateRoadmap | frontend/src/components/Roadmap.js:14-55 | after a valid submit loading is off and exactly one of roadmap and error is set, the roadmap being the returned one |
| Roadmap.RoadmapForm.Reset | frontend/src/components/Roadmap.js:57-63 | the form is shown with roadmap and error null and goal and skills empty; loading is untouched |
| AiCounselor.PromptMessages | supabase/functions/ai-counselor/index.ts:42-44 | the prompt starts with the system message and ends with `{user, query}`, with the history in between in order when it is an array; its length is the history's plus 2, or 2 |
| AiCounselor.Truthy | supabase/functions/ai-counselor/index.ts:30 | JavaScript truthiness of an optional string: present and non-empty |
| AiCounselor.NonArrayHistoryIgnored | supabase/functions/ai-counselor/index.ts:43 | a history that is not an array gives the same prompt as none |
| AiCounselor.ErrorResponse | supabase/functions/ai-counselor/index.ts:56 | status 400, body `{error: message}`, CORS and JSON headers |
| AiCounselor.Serve | supabase/functions/ai-counselor/index.ts:16-58 | OPTIONS gives `'ok'` with the CORS headers before the body is read; an unreadable body, a falsy query or session id, a missing user, or a failed completion gives 400 `{error}`; success gives 200 `{reply}`; the user row is recorded before the model call, and the reply row after it; status 200 means the preflight or both rows recorded |

## Left out

- Byte decoding (`TextDecoder`): each chunk is taken as already decoded text. The code decodes each chunk on its own, so there is no cross-chunk guarantee to state.
- ChatStream.Classify: `JSON.parse` and the `choices[0]?.delta?.content` access are an abstract parser. Concrete JSON syntax is not modelled.
- Strings.ToLower: maps only the ASCII letters. JavaScript's `toLowerCase` also maps other scripts, so `Dashboard.SomeNameMatches` compares non-ASCII names case-sensitively where the browser would not.
- SkillList.SortByName: stated as sorted and a permutation, with `SortOfSorted`. The stability of `Array.prototype.sort` is built into the insertion order but not stated as a separate property. `localeCompare` is an abstract total preorder.
- Dashboard.SkillsToAdd: gives the calls `Promise.all` starts, not their combined effect. The calls run concurrently over the same stale `userSkills`, so the final list depends on interleaving, which this model does not cover.
- React state updates are modelled as immediate field assignments. The updater functions are applied at once to the current state.
- The widget mutates the last message object in place, which aliases the earlier array. The model replaces the message value instead.
- AppSkills.AppState.LoadSkills: the intermediate `loadingSkills = true` during the fetch is set in the body but not stated, because only the final state is observable once the call returns.
- Error texts that go only to the console are left out: the HTTP error message built at `Chatbot.js:30-31`, the duplicate notice at `Dashboard.js:42`, the errors the Dashboard's fetch throws only to log them (`Dashboard.js:18,25,30-31`), and the error logs.
- JSON values of unexpected types are not modelled: a non-string `query`, history items that are not messages, a truthy non-array `roadmap`, non-string step fields, or a `null` completion content.
- The counselor's environment, client creation and model parameters (`gpt-4o-mini`, 500 tokens) are left out. The two `chat_messages` inserts are recorded as rows, but their own outcomes are ignored because the handler ignores them.
- App's `handleNewTextContent` (the `user_content` insert), the auth listener, and the background and cursor effects are not part of this model. Neither are the pages, the layout components, or the other edge functions (`generate-roadmap`, `extract-skills`, `fetch-opportunities`, `clear-user-data`, `test-cors`).
- A form submit's `preventDefault` and the rendering are left out.

## Behaviour of the code worth noting

- `frontend/src/components/Chatbot.js:67-69`: the completion callback runs only after a successful read. The catch block at lines 71-78 writes the apology and does not call it.
- `frontend/src/components/Chatbot.js:48`: a `[DONE]` line breaks only the `for` loop over the current chunk's lines. The `while` loop at line 38 goes on reading later chunks.
- `frontend/src/components/Chatbot.js:42-43`: each chunk is split on its own and no partial line is carried to the next one. A frame split by a chunk boundary is lost (`ChatStream.SplitFrameLost`).
- `supabase/functions/ai-counselor/index.ts:51`: the counselor function does not stream. It returns one `{reply}` JSON body.
- `supabase/functions/ai-counselor/index.ts:53-56`: every error, a failed model call included, gives status 400.
- `supabase/functions/ai-counselor/index.ts:30,38`: the function requires `session_id` and a signed-in user as well as `query`.
- `frontend/src/components/Chatbot.js:14-25` and `supabase/functions/ai-counselor/index.ts:30,51`, read together as text: the widget posts `{query, history}` without a `session_id` and without an Authorization header, so the counselor answers 400 and the widget shows the apology. Even a 200 answer would be one `{reply}` JSON body with no `data: ` line, which the widget reads as an empty reply (`ChatStream.Classify` ignores every line without the prefix).
