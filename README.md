# MemoSpark content pipeline in Dafny

This project models the part of the MemoSpark FastAPI service that turns text into study items once the language model has answered. It covers flashcards, multiple-choice quizzes and exercises. Each piece is proved against a specification.

What is modelled:

- **Response parsing.** The section parsers read model replies into items:
  - `Q:`/`A:` flashcards;
  - `A)`..`D)` quizzes with an `Answer:` letter;
  - `Type:` exercises;
  - the line- and sentence-based alternative flashcard parser.

  The structured path cuts the first `[` … last `]` out of a reply. It then removes trailing commas before `]`/`}`, which the JSON grammar of sections 4 and 5 of RFC 8259 does not allow.
- **Cleaning and validation.** This covers each generator's `_clean_text` substitution pipeline and its `_is_valid_*` shape predicate. It also covers the `_clean_and_validate_*` loop, which cleans, filters and truncates.
- **Rule-based generation.** The rule-based generators build items straight from the document text, with exact-count guarantees. They follow the `ENABLE_RULE_BASED_FALLBACK` gating of `generate_*`. The older sentence-based quiz and exercise generators are included, with their shuffles and random choices.
- **Shared helpers and scripts.** These are:
  - sentence chunking, key-concept ranking, and the validation of language and difficulty;
  - the topic content generator's prompts, fallback rule and summary-field extraction;
  - the `/process-file` route's card-type filter and response assembly;
  - the two configuration scripts, which rewrite `.env`.

Modules:

| Module | Contents |
|---|---|
| `Wrappers` | `Option` and `Outcome`, the result of a Python call that may raise |
| `Text` | strings as `seq<char>` and the `str` methods used: strip, split, join, find, replace, lower, title |
| `Markers` / `Json` | each regular expression as a function over its literal markers, and the JSON values the structured path reads |
| `Cleaning` | the `_clean_text` pipelines and `clean_text` |
| `Sections` / `Pipeline` | the shared parse-sections loop shapes, the clean-and-validate loop, and the fallback gate |
| `DocumentQuiz`, `DocumentFlashcard`, `DocumentExercise` | the three document generators |
| `FlashcardGen`, `QuizGen`, `ExerciseGen` | the other generators |
| `RuleBased` | the layout shared by the rule-based generators |
| `Concepts` | `extract_key_concepts` and its per-generator copies |
| `Utils` | the remaining helpers of `app/utils.py` |
| `TopicPrompts` / `TopicContent` | the topic content generator |
| `FileProcessing` | the route, and the text-extraction dispatcher it calls |
| `DotEnv`, `PriorityConfig`, `FallbackConfig` | the configuration scripts and the `.env` file |

How state and outside calls are modelled:

- The loops of the source, which keep appending and updating the state machine, are methods with loop invariants. Each method's `ensures` ties its result to a specification function, and lemmas state what the source promises about that function.
- The `.env` file is a class whose `lines` field the scripts reassign.
- The source does not define `ENABLE_RULE_BASED_FALLBACK` in `app/config.py`, so the imports of it in the document flashcard and exercise generators raise.
  - The flag is therefore an `Option<bool>` parameter of the gate.
  - `None` stands for the missing name and gives the raised outcome.

## Model

| member | source | states |
|---|---|---|
| Utils.GroupAfterSpec | app/utils.py:40-49 | the groups the loop closes, one after another, are exactly the chunk sentences in order |
| Utils.GroupAfterGreedy | app/utils.py:41-46 | a group is closed only when the next sentence would take the chunk past `max_chunk_length`, and every group but the first opened that way |
| Utils.GroupAfterShape | app/utils.py:38-46 | the current chunk is empty only before the first sentence, and no chunk is closed before then |
| Utils.PlaceFlatten | app/utils.py:41-46 | one turn of the loop adds the sentence at the end of the sentences seen |
| Utils.GluedAll | app/utils.py:43 | each chunk appended is its group's sentences joined with `". "` |
| Utils.GluedStripped | app/utils.py:43 | a chunk of stripped non-empty sentences is non-empty and already stripped, so `strip()` leaves it as it is |
| Utils.ChunkStep | app/utils.py:40-46 | one loop turn: the chunks and current chunk after it are those of the grouping after the sentence is placed |
| Utils.ChunkSentences | app/utils.py:37-51 | the loop and the final append give the glued groups of the sentences |
| Utils.SplitTextIntoChunks | app/utils.py:34-51 | `split_text_into_chunks` returns the chunks of the long sentences of the text |
| Utils.ChunksSpec | app/utils.py:34-51 | the chunks are the greedy groups glued with `". "`; the groups, one after another, are the long sentences, and no chunk is empty |
| Utils.ChunkLength | app/utils.py:41-46 | a chunk of two or more sentences is at most `max + 2` characters |
| Utils.ChunksBounded | app/utils.py:34-51 | every chunk is at most `max + 2` characters long unless it is a single sentence |
| Utils.ValidateLanguage | app/utils.py:53-55 | true exactly for `en`, `si` and `ta` |
| Utils.ValidateDifficulty | app/utils.py:57-60 | the result is always a known level; a known level is kept and anything else becomes `beginner` |
| Utils.ValidateDifficultyIdempotent | app/utils.py:57-60 | normalising a difficulty twice gives what normalising once gives |
| Utils.ValidateFileType | app/utils.py:62-65 | true exactly when the lower-cased extension is `pdf`, `docx` or `pptx` (app/config.py line 55) |
| Concepts.Filter | app/generators/document_exercise_generator.py:432-434 | the counted words are the words longer than the length bound, in order (every word with the bound of app/utils.py:27-28) |
| Concepts.FilterMembers | app/generators/document_exercise_generator.py:432-434 | a word is counted exactly when it occurs and is longer than the bound |
| Concepts.FilterNone | app/utils.py:27-28 | the unfiltered loop of `extract_key_concepts` counts every word |
| Concepts.CountPositive | app/utils.py:27-28 | a word gets a positive count exactly when it occurs |
| Concepts.DedupMembers | app/utils.py:26-28 | the dictionary's keys are the counted words, each once |
| Concepts.DedupOrder | app/utils.py:26-28 | the keys are in the order of their first occurrence |
| Concepts.Table | app/utils.py:26-31 | `word_freq.items()`: each distinct word, in first-occurrence order, with its number of occurrences |
| Concepts.Insert | app/utils.py:31 | one insertion step adds the entry and keeps every other one (a permutation of the input plus the entry) |
| Concepts.Sort | app/utils.py:31 | the sort is a permutation of the items |
| Concepts.InsertSorted | app/utils.py:31 | inserting into a list sorted by decreasing count keeps it sorted |
| Concepts.SortSorted | app/utils.py:31 | the sorted items are in non-increasing count order |
| Concepts.InsertByCount | app/utils.py:31 | an insertion puts the new entry ahead of the entries of equal count that were already placed |
| Concepts.SortStable | app/utils.py:31 | the sort is stable: for each count, the entries with that count keep their input order |
| Concepts.Names | app/utils.py:32 | `[concept[0] for ...]`: the names of the entries, in order |
| Concepts.SortedTableEntries | app/utils.py:26-31 | each sorted entry is a counted word with its own count |
| Concepts.TableOnce | app/utils.py:26-31 | each entry of the table occurs once |
| Concepts.SortedTableDistinct | app/utils.py:31-32 | the names of the sorted table are distinct |
| Concepts.KeyConceptsBound | app/utils.py:32 | at most `max_concepts` concepts, and no more than the distinct counted words |
| Concepts.KeyConceptsDistinct | app/generators/document_exercise_generator.py:424-438 | the concepts are distinct words of the input, each longer than the bound |
| Concepts.KeyConceptsByFrequency | app/utils.py:31-32 | the concepts come in non-increasing frequency |
| Concepts.KeyConceptsTop | app/utils.py:31-32 | no counted word that is left out is more frequent than a returned concept |
| Concepts.CountFrequencies | app/utils.py:26-28 | after the loop the dictionary holds exactly the counted words, each with its number of occurrences, and its insertion order is first-occurrence order |
| Concepts.CountsStep | app/utils.py:28 | one `word_freq[word] = word_freq.get(word, 0) + 1` adds one to that word's count and appends it to the order only when new |
| Concepts.CountStep | app/utils.py:28 | counts and first-occurrence order after one more word |
| Concepts.ExtractKeyConcepts | app/generators/flashcard_generator.py:444-459 | the method returns the names of the first `limit` entries of the frequency-sorted table |
| Concepts.RelevantTo | app/generators/flashcard_generator.py:467-470 | a sentence accepted by the test is never blank once stripped |
| Concepts.RelevantContentSpec | app/generators/flashcard_generator.py:463-476 | `""` exactly when no sentence contains the concept (ignoring case) and is longer than 20 characters once stripped; otherwise the first such sentence, stripped |
| Concepts.RelevantAmong | app/generators/document_flashcard_generator.py:352-360 | a non-empty result is the stripped form of one of the sentences and passes the test |
| Concepts.FirstStrippedSpec | app/generators/document_flashcard_generator.py:356-360 | the loop returns `""` exactly when no sentence passes the test |
| Concepts.FirstWhere | app/generators/document_flashcard_generator.py:356-358 | the first index the test holds at, or -1 when it holds nowhere |
| Concepts.FindRelevantContent | app/generators/document_flashcard_generator.py:352-362 | `_find_relevant_content` returns the first relevant sentence, stripped, or `""` |
| Concepts.FirstStrippedMatch | app/generators/document_flashcard_generator.py:356-360 | the loop returns the stripped first sentence that passes the test, or `""` |
| Concepts.FirstWhereAt | app/generators/document_flashcard_generator.py:356-358 | the loop's stopping index is the one `FirstWhere` names |
| Cleaning.Without | app/generators/document_quiz_generator.py:387-389 | the text with one character deleted everywhere is no longer than the input (the measure the markdown steps are proved against) |
| Cleaning.WithoutDrops | app/generators/document_quiz_generator.py:387-389 | no occurrence of the deleted character is left |
| Cleaning.WithoutAppend | app/generators/document_quiz_generator.py:387-389 | deleting a character from a concatenation deletes it from each part |
| Cleaning.Run | app/generators/document_quiz_generator.py:386 | the leading run of a character (the `#` of a header, the dots of an ellipsis) is maximal |
| Cleaning.DropHeaders | app/generators/document_quiz_generator.py:386 | after `re.sub(r'#{1,6}\s*', '', text)` no `#` is left and the text is no longer |
| Cleaning.Unwrap | app/generators/document_quiz_generator.py:387-389 | unwrapping a delimited span never lengthens the text |
| Cleaning.ClosingAt | app/generators/document_quiz_generator.py:387-389 | a span is closed only by a delimiter that occurs after the opening one |
| Cleaning.UnwrapDeletesDelimiters | app/generators/document_quiz_generator.py:387-389 | `re.sub(d + '(.*?)' + d, r'\1', s)` deletes delimiter characters and nothing else |
| Cleaning.WrappedParts | app/generators/document_quiz_generator.py:387-389 | outside its delimiters a wrapped span is the text between them |
| Cleaning.StripMarkdown | app/generators/document_quiz_generator.py:386-389 | the markdown steps delete only `#` runs with their spaces, `*` and backquotes: with those removed, the text is what the header step leaves |
| Cleaning.WithoutCommutes | app/generators/document_quiz_generator.py:387-389 | deleting two characters in either order gives the same text |
| Cleaning.DropLeadingLabel | app/generators/document_quiz_generator.py:392 | the result is a suffix of the input, and the input itself when no label starts it |
| Cleaning.RemoveLabel | app/generators/flashcard_generator.py:328-332 | deleting a label everywhere never lengthens the text and leaves a text without it unchanged |
| Cleaning.TrailingDotsCount | app/generators/flashcard_generator.py:340 | the final run of dots is maximal |
| Cleaning.CollapseDots | app/generators/flashcard_generator.py:339 | collapsing runs of three or more dots keeps the text empty exactly when it was, and keeps its first and last characters |
| Cleaning.CollapseDotsSingleSpaced | app/generators/flashcard_generator.py:335-339 | collapsing dots never puts two spaces next to each other |
| Cleaning.TrailingDots | app/generators/flashcard_generator.py:340 | the final-dots step keeps emptiness, the first and last characters, and single spacing |
| Cleaning.Finish | app/generators/document_quiz_generator.py:399-400 | a non-empty text ends in `.`, `!` or `?` afterwards; stripping and single spacing are kept; empty stays empty |
| Cleaning.DocumentClean | app/generators/document_quiz_generator.py:380-402 | `_clean_text` gives an empty text or a stripped, single-spaced one ending in `.`, `!` or `?`; it is empty exactly when the input is empty or only whitespace is left after the markdown and label steps |
| Cleaning.RemoveLabels | app/generators/flashcard_generator.py:328-332 | removing the labels never lengthens the text |
| Cleaning.FlashcardClean | app/generators/flashcard_generator.py:316-346 | the flashcard `_clean_text` gives an empty text or a stripped, single-spaced one ending in `.`, `!` or `?`, and empty input gives empty output |
| Cleaning.DropArtifacts | app/utils.py:12 | after the artifact step only word characters, whitespace and the listed punctuation remain |
| Cleaning.ArtifactRun | app/utils.py:12 | a run of artifacts starting the text is at least one character long |
| Cleaning.FixBetweenWords | app/utils.py:15-16 | an OCR fix keeps the length, and changes nothing when the character it fixes does not occur |
| Cleaning.PipeFixIsDead | app/utils.py:12-15 | as written, the artifact step has already turned every `|` into a space, so the `|` fix never changes anything |
| Cleaning.PipeIsArtifact | app/utils.py:12 | `|` is one of the characters the artifact step replaces |
| Cleaning.UtilsCleanText | app/utils.py:5-18 | `clean_text` is empty exactly when the text is blank; its only whitespace is plain spaces; every character is a word character, whitespace or listed punctuation, or an `l`/`o` an OCR fix wrote; the fixes keep the length of the artifact step's output |
| Cleaning.ZeroBetweenWords | app/utils.py:16 | a `0` between two word characters becomes `o` |
| Cleaning.DropArtifactsKept | app/utils.py:12 | text made only of kept characters passes the artifact step unchanged |
| Cleaning.UtilsCleanTextFixed | app/utils.py:5-18 | the corrected order (OCR fixes before the artifact step) leaves only kept characters, and is empty exactly when the text is blank |
| Cleaning.PipeFixApplies | app/utils.py:12-15 | with the fixes first, `a\|b` between word characters becomes `alb`; as written it becomes `a b` |
| Text.Lower | app/utils.py:65 | `lower()` keeps the length and lower-cases each ASCII capital, leaving every other character |
| Text.Title | app/generators/topic_content_generator.py:54 | `title()` keeps the length, upper-cases a letter that follows a non-letter, lower-cases one that follows a letter, and leaves non-letters |
| Text.FindFrom | app/generators/exercise_generator.py:53 | the first occurrence at or after the start, and -1 exactly when there is none |
| Text.Find | app/generators/document_quiz_generator.py:99 | `find` gives the first occurrence, and -1 exactly when the text does not contain the pattern |
| Text.FindChar | app/generators/document_quiz_generator.py:99 | `find` of a character gives its first index, -1 exactly when it is absent |
| Text.RFindChar | app/generators/document_quiz_generator.py:100 | `rfind` of a character gives its last index, -1 exactly when it is absent |
| Text.Strip | app/utils.py:36 | `strip()` is the slice after the leading whitespace that leaves only whitespace behind it, with no whitespace at either end |
| Text.StripIdempotent | app/utils.py:36 | stripping twice is stripping once |
| Text.StripKeeps | app/generators/document_quiz_generator.py:395-396 | stripping keeps single spacing and every non-whitespace character |
| Text.CollapseSpaces | app/generators/document_quiz_generator.py:395 | `re.sub(r'\s+', ' ', s)` leaves no two spaces together, is empty exactly when the input is, and starts with a space exactly when the input starts with whitespace |
| Text.Squish | app/generators/document_quiz_generator.py:395-396 | collapsing then stripping is stripped and single-spaced, empty exactly when the input is all whitespace, and keeps every non-whitespace character in order |
| Text.Split | app/utils.py:36 | `split(sep)` gives at least one piece, the pieces joined with `sep` give back the text, and no piece contains `sep` |
| Text.SplitFirst | app/generators/flashcard_generator.py:467 | the first piece is the text before the first separator, or the whole text |
| Text.SplitHasSecond | app/generators/flashcard_generator.py:467 | a second piece exists exactly when the separator occurs |
| Text.JoinAvoids | app/generators/exercise_generator.py:53 | joining pieces without `t` by a glue that shares no character with `t` gives a text without `t` |
| Text.Words | app/generators/quiz_generator.py:30 | `split()` gives non-empty, whitespace-free words, and none exactly when the text is all whitespace |
| Text.WordsOfJoin | app/generators/quiz_generator.py:89 | splitting the space-join of words gives the words back |
| Text.Take | app/generators/flashcard_generator.py:386 | `s[:n]` has length `min(n, len)` for `n >= 0` and `max(0, len + n)` for negative `n`, and is a prefix |
| Text.Slice | app/generators/document_quiz_generator.py:106 | `s[a:b]` has the clamped length and is the clamped slice |
| Text.StrippedLonger | app/utils.py:36 | the kept pieces are stripped and longer than the bound, and there are no more of them than pieces |
| Text.StrippedLongerWithout | app/utils.py:36 | a character absent from every piece is absent from every kept piece |
| Text.Sentences | app/utils.py:36 | every sentence is stripped, longer than the bound and contains no `.` |
| Text.ReplaceIsJoinOfSplit | app/generators/exercise_generator.py:53 | `s.replace(pat, rep)` is `rep.join(s.split(pat))` |
| Text.ReplaceRemovesAll | app/generators/exercise_generator.py:53 | with a non-empty replacement sharing no character with the pattern, no occurrence of the pattern is left |
| Json.KeyIndex | app/generators/document_quiz_generator.py:347 | the first field with the key, or -1 exactly when no field has it |
| Json.Get | app/generators/document_quiz_generator.py:347-349 | `get` succeeds exactly on a dict, and gives the default exactly when the key is missing, otherwise the first value under the key |
| Json.Field | app/generators/document_quiz_generator.py:347 | the looked-up value is what `get` returns on a dict |
| Json.StripValue | app/generators/document_quiz_generator.py:347 | `strip()` succeeds exactly on a str, and its result is stripped and empty exactly when the str is all whitespace |
| Json.Iterate | app/generators/document_quiz_generator.py:356 | iteration succeeds exactly on a str, list or dict, and yields the characters, the items or the keys |
| Json.ArraySlice | app/generators/document_quiz_generator.py:99-106 | no slice exactly when `[` or `]` is missing; a non-empty slice runs from the first `[` to the last `]`; an empty one means no `]` after the first `[` |
| Json.DropCommaBefore | app/generators/document_quiz_generator.py:109 | the substitution never lengthens the text |
| Json.DropLeavesNone | app/generators/document_quiz_generator.py:109 | after `re.sub(r',\s*]', ']', s)` no comma is followed, past whitespace, by `]`, unless the text had two commas separated only by whitespace |
| Json.DropKeepsNoTrailing | app/generators/document_quiz_generator.py:109-110 | the second substitution creates no trailing comma before the first one's closer |
| Json.RepairRemovesTrailingCommas | app/generators/document_quiz_generator.py:109-110 | with no comma run, the repaired text has no trailing comma before `]` or `}` |
| Json.RepairIdentity | app/generators/document_quiz_generator.py:109-110 | text without trailing commas is left exactly as it is |
| Json.Essence | app/generators/document_quiz_generator.py:109-110 | the characters other than commas and whitespace, no more than the text |
| Json.RepairKeepsEssence | app/generators/document_quiz_generator.py:109-110 | the repair deletes only commas and whitespace: every other character stays, in order |
| Json.StructuredItems | app/generators/document_quiz_generator.py:93-128 | items come back only from a non-blank response with a bracketed slice that decodes, after repair, to a list, and then they are that list's items |
| Markers.DigitRun | app/generators/flashcard_generator.py:146 | the leading run of digits is maximal |
| Markers.PunctRunLength | app/generators/flashcard_generator.py:265 | the leading run of `.`, `!` and `?` is maximal |
| Markers.MatchLen | app/generators/document_quiz_generator.py:171 | a match lies inside the text, and a literal alternative matches exactly where its text occurs, with that text's length, case-insensitively when flagged |
| Markers.MatchAnySpec | app/generators/document_quiz_generator.py:171 | the alternation fails exactly when every alternative fails, and otherwise has the length of an alternative that matches |
| Markers.SplitScan | app/generators/document_quiz_generator.py:171 | the scan has one more piece than separators |
| Markers.SplitScanWeave | app/generators/document_quiz_generator.py:171 | the pieces and separators of the scan rebuild the scanned text |
| Markers.ReSplit | app/generators/document_quiz_generator.py:171 | `re.split` gives at least one piece |
| Markers.ReSplitLeadingMatch | app/generators/document_quiz_generator.py:171-174 | a text that starts with a match splits into an empty first piece |
| Markers.ReSplitLeadingLiteral | app/generators/document_quiz_generator.py:171-174 | a text that starts with a literal alternative splits into an empty first piece |
| Markers.ReSplitRebuilds | app/generators/document_quiz_generator.py:171 | the pieces interleaved with the separators rebuild the input |
| Markers.ReSplitPiecesClean | app/generators/document_quiz_generator.py:171 | no piece still contains a literal alternative |
| Markers.HasMatchIffSplits | app/generators/document_flashcard_generator.py:176-177 | `re.search` succeeds exactly when `re.split` gives at least two pieces |
| Markers.LabelAt | app/generators/document_exercise_generator.py:210 | a viable label match leaves at least one character after it |
| Markers.LabelAtSpec | app/generators/document_exercise_generator.py:210 | a viable label match has the length of some label's match |
| Markers.FirstStop | app/generators/document_exercise_generator.py:210 | the lookahead holds at the position found and at no earlier one |
| Markers.FirstLabel | app/generators/document_exercise_generator.py:210 | the leftmost viable label position, or -1 exactly when there is none |
| Markers.LabeledCapture | app/generators/document_exercise_generator.py:210-220 | a found group starts after a viable label and ends where the lookahead first holds; the search fails exactly when no label is viable anywhere |
| Markers.CaptureText | app/generators/document_exercise_generator.py:210-220 | a captured group is non-empty |
| Markers.LeadCapture | app/generators/document_quiz_generator.py:183 | the capture is a non-empty proper prefix; it fails only when no stop alternative matches after any non-empty prefix |
| Markers.FirstMatchFrom | app/generators/document_quiz_generator.py:171 | the leftmost match position, or -1 exactly when there is none |
| Markers.LeadingWord | app/generators/document_exercise_generator.py:205 | the maximal leading prefix of letters and underscores |
| Markers.LetterAfterLabel | app/generators/document_quiz_generator.py:206 | the position found holds a letter `A` to `D` after the label |
| Markers.LetterSearch | app/generators/document_quiz_generator.py:206 | a found letter is `A` to `D`; none means no label at any later position is followed by one |
| Markers.AnswerLetter | app/generators/document_quiz_generator.py:206 | the answer letter, upper-cased, is `A` to `D` |
| Sections.Append | app/generators/document_quiz_generator.py:209-219 | appending an optional item grows the list by one exactly when there is an item |
| Sections.ParseFromBound | app/generators/document_quiz_generator.py:172-178 | the quiz section loop never returns more than `expected_count` items |
| Sections.ParseFromSections | app/generators/document_quiz_generator.py:172-178 | every quiz the loop adds is the item of a non-blank section, in section order |
| Sections.ParseUntilBound | app/generators/document_flashcard_generator.py:172-191 | the flashcard section loop never returns more than `max(expected_count, 1)` items, since the count is checked only after an append |
| Sections.ParseUntilSections | app/generators/document_flashcard_generator.py:172-191 | every card the loop adds is the item of a non-blank section, in section order |
| Sections.ParseWhileStopsAtBlank | app/generators/document_exercise_generator.py:193-196 | nothing after the first blank section reaches the result (`break`, not `continue`) |
| Sections.ParseWhileBound | app/generators/document_exercise_generator.py:193-196 | the exercise section loop never returns more than `expected_count` items |
| Sections.ParseWhileSections | app/generators/document_exercise_generator.py:193-196 | every exercise the loop adds is the item of a non-blank section, and none comes after a blank one |
| Pipeline.Consumed | app/generators/document_quiz_generator.py:346-376 | the loop processes at least one item and at most all of them, or none of an empty list |
| Pipeline.CollectIsKeptPrefix | app/generators/document_quiz_generator.py:342-378 | `_clean_and_validate_*` keeps exactly the cleaned, valid items among the items it processes, in input order, and raises exactly when one of those raises |
| Pipeline.CollectBound | app/generators/document_quiz_generator.py:375-376 | the result has at most `max(target_count, 1)` items, and at least `target_count` when the loop stops early |
| Pipeline.KeptAll | app/generators/document_quiz_generator.py:366-373 | what the per-item step promises of each item it keeps holds of the whole result |
| Pipeline.CollectNeverRaises | app/generators/document_quiz_generator.py:342-378 | a step that never raises on the items makes the loop succeed |
| Pipeline.KeptFromInputs | app/generators/document_quiz_generator.py:366-373 | each kept item is the step's value for some input item |
| Pipeline.CleanAndValidate | app/generators/document_quiz_generator.py:342-378 | the loop computes exactly the specification of the cleaning pass |
| Pipeline.Encode | app/generators/document_quiz_generator.py:331-337 | one dict per produced item, in order |
| Pipeline.GateFallback | app/generators/document_flashcard_generator.py:31-41 | with no model items: the cleaned rule-based list when the fallback flag is on, nothing when it is off, and an exception when the flag is undefined |
| Pipeline.GateModelItems | app/generators/document_flashcard_generator.py:43-57 | with model items, the flag matters only when cleaning them raises |
| Pipeline.GateShape | app/generators/document_flashcard_generator.py:12-57 | every item returned satisfies what the step promises, or what the rule-based list promises, and the count bound carries over |
| Pipeline.CleanedShape | app/generators/document_quiz_generator.py:342-378 | every kept item is good and there are at most `max(count, 1)` of them |
| Json.Strs | app/generators/document_quiz_generator.py:331-337 | one JSON string per list entry, in order |
| DocumentQuiz.Values | app/generators/document_quiz_generator.py:331-337 | one quiz dict per quiz, in order |
| DocumentQuiz.SectionOption | app/generators/document_quiz_generator.py:199-203 | an option found by its pattern is stripped and longer than 2 characters |
| DocumentQuiz.SectionOptions | app/generators/document_quiz_generator.py:190-203 | at most one option per pattern, each stripped and longer than 2 characters |
| DocumentQuiz.FourOptionsInOrder | app/generators/document_quiz_generator.py:190-211 | when all four patterns give an option, option `k` is the group of pattern `k` |
| DocumentQuiz.SectionQuizShape | app/generators/document_quiz_generator.py:182-218 | a section's quiz has four stripped options longer than 2 characters, each its pattern's group, the answer the option the `Answer:` letter names, and a non-empty question |
| DocumentQuiz.BuildQuizShape | app/generators/document_quiz_generator.py:206-218 | a quiz is built only from four options and an `Answer:` letter; its answer is the option that letter names, its question is non-empty, and it is a beginner multiple-choice quiz |
| DocumentQuiz.SectionWithoutQuestion | app/generators/document_quiz_generator.py:183-185 | a section without text before its first option mark yields nothing |
| DocumentQuiz.ParsedQuizzes | app/generators/document_quiz_generator.py:166-221 | `_parse_simple_format` gives at most `expected_count` quizzes, each with four options and the answer the letter names |
| DocumentQuiz.ExtractOptions | app/generators/document_quiz_generator.py:198-203 | the option loop computes exactly the options of the four patterns, in order |
| DocumentQuiz.ParseSimpleFormat | app/generators/document_quiz_generator.py:166-221 | the section loop computes exactly the specification of `_parse_simple_format` |
| DocumentQuiz.CleanText | app/generators/document_quiz_generator.py:380-402 | the cleaned text is empty or stripped, single-spaced and ends in `.`, `!` or `?` |
| DocumentQuiz.CleanTextEmpty | app/generators/document_quiz_generator.py:380-402 | the cleaned text is empty exactly when the input is empty or only whitespace is left after the markdown and label steps |
| DocumentQuiz.CleanOptions | app/generators/document_quiz_generator.py:355-360 | no more options than were given, each longer than 2 characters |
| DocumentQuiz.CleanOptionsAll | app/generators/document_quiz_generator.py:355-360 | what cleaning promises of each string holds of every kept option |
| DocumentQuiz.CleanOptionsKeepsAll | app/generators/document_quiz_generator.py:355-360 | when every option is a string that survives cleaning, the result is those strings cleaned, in order |
| DocumentQuiz.CleanOptionsDropsNonStrings | app/generators/document_quiz_generator.py:357 | options that are not strings are dropped |
| DocumentQuiz.CleanQuiz | app/generators/document_quiz_generator.py:346-373 | one loop pass raises exactly when a field has the wrong type; a kept quiz is valid, of type "Multiple Choice" and built from the cleaned fields, and a quiz is kept exactly when `_is_valid_quiz` holds |
| DocumentQuiz.CleanQuizOfRecord | app/generators/document_quiz_generator.py:346-349 | a quiz dict built by this module never makes the cleaner raise |
| DocumentQuiz.CleanAndValidateQuizzes | app/generators/document_quiz_generator.py:342-378 | the method computes exactly the cleaning pass |
| DocumentQuiz.CleanedQuizzes | app/generators/document_quiz_generator.py:342-378 | at most `max(target_count, 1)` quizzes, each valid, of type "Multiple Choice" with cleaned text, each the cleaned form of an input, in input order |
| DocumentQuiz.CollectOfRecords | app/generators/document_quiz_generator.py:342-378 | cleaning the module's own quiz dicts never raises |
| DocumentQuiz.SlotQuiz | app/generators/document_quiz_generator.py:234-266 | a rule-based quiz has four options, the first as answer, and the slot's phrases filled with the concept or sentence |
| DocumentQuiz.RuleBasedQuizListShape | app/generators/document_quiz_generator.py:223-340 | exactly `count` quizzes for a non-negative count, each with four options and its first option as answer; the first `min(count // 2, len(concepts))` are the concept quizzes, in ranking order |
| DocumentQuiz.QuizLayoutShape | app/generators/document_quiz_generator.py:234-340 | exactly `count` quizzes for a non-negative count, each rule-shaped, the first `min(count // 2, len(concepts))` being the concept quizzes in order |
| DocumentQuiz.RuleBasedQuizzes | app/generators/document_quiz_generator.py:223-340 | the method computes exactly the rule-based list |
| DocumentQuiz.FillQuizLayout | app/generators/document_quiz_generator.py:234-340 | the loops compute exactly the layout once the phrases are chosen |
| DocumentQuiz.CleanOrFallbackShape | app/generators/document_quiz_generator.py:36-45 | both outcomes have four options with the answer among them, and the count bound |
| DocumentQuiz.ShortTextNoQuizzes | app/generators/document_quiz_generator.py:18-21 | stripped text shorter than 50 characters yields no quizzes |
| DocumentQuiz.RuleBasedIsLastResort | app/generators/document_quiz_generator.py:31-37 | when both model paths give nothing, the rule-based list is cleaned and returned: no flag turns it off and cleaning it cannot raise |
| DocumentQuiz.GeneratedQuizzesShape | app/generators/document_quiz_generator.py:13-45 | whatever path is taken, every quiz has four options and an answer among them, and at most `max(count, 1)` of them for a non-negative count |
| DocumentFlashcard.SectionCardShape | app/generators/document_flashcard_generator.py:175-187 | once the search finds an answer mark the split has two pieces; a section's card is the stripped text before the first mark as question and between the first and second as answer, both longer than 5 characters, neither containing a mark |
| DocumentFlashcard.SectionWithoutAnswer | app/generators/document_flashcard_generator.py:191-194 | a section with no answer mark yields no card |
| DocumentFlashcard.ParsedCards | app/generators/document_flashcard_generator.py:160-198 | `_parse_qa_format` gives at most `max(expected_count, 1)` cards, each the card of a non-blank section, with question and answer longer than 5 characters |
| DocumentFlashcard.ParseQaFormat | app/generators/document_flashcard_generator.py:160-198 | the method computes exactly the specification of `_parse_qa_format` |
| DocumentFlashcard.ParseQaSections | app/generators/document_flashcard_generator.py:170-196 | the section loop computes exactly the bounded parse of the sections |
| DocumentFlashcard.ParseQaSection | app/generators/document_flashcard_generator.py:175-196 | one section yields exactly its card, and is remembered as the current question only when it has no answer mark, no question is remembered yet and it is longer than 5 characters |
| DocumentFlashcard.CleanText | app/generators/document_flashcard_generator.py:295-317 | the cleaned text is empty or stripped, single-spaced and ends in `.`, `!` or `?` |
| DocumentFlashcard.CleanCard | app/generators/document_flashcard_generator.py:273-291 | one loop pass raises exactly when a field has the wrong type; a kept card is valid, of type "Q&A" and built from the cleaned fields, and a card is kept exactly when `_is_valid_flashcard` holds |
| DocumentFlashcard.KeptAnswerEnds | app/generators/document_flashcard_generator.py:319-333 | a kept card's answer, cleaned and not ending in `?`, ends in `.` or `!` |
| DocumentFlashcard.CleanCardOfRecord | app/generators/document_flashcard_generator.py:273-275 | a card dict built by this module never makes the cleaner raise |
| DocumentFlashcard.CleanAndValidateFlashcards | app/generators/document_flashcard_generator.py:269-293 | the method computes exactly the cleaning pass |
| DocumentFlashcard.CleanedCards | app/generators/document_flashcard_generator.py:269-293 | at most `max(target_count, 1)` cards, each valid, of type "Q&A" with cleaned text, each the cleaned form of an input, in input order |
| DocumentFlashcard.PhrasesAsk | app/generators/document_flashcard_generator.py:211-262 | every question phrase of every language ends in `?` |
| DocumentFlashcard.CardLayoutShape | app/generators/document_flashcard_generator.py:200-267 | exactly `count` cards for a non-negative count, all Q&A cards whose question ends in `?`, the first `min(count // 2, len(concepts))` being the concept cards in ranking order |
| DocumentFlashcard.CardLayoutTail | app/generators/document_flashcard_generator.py:231-264 | after the concept cards come the sentence cards, one per long sentence in text order, then the generic card |
| DocumentFlashcard.RuleBasedCardListShape | app/generators/document_flashcard_generator.py:200-267 | `_generate_rule_based_flashcards` returns exactly `count` cards for a non-negative count, each a Q&A card whose question ends in `?` |
| DocumentFlashcard.RuleBasedFlashcards | app/generators/document_flashcard_generator.py:200-267 | the method computes exactly the rule-based list |
| DocumentFlashcard.FillCardLayout | app/generators/document_flashcard_generator.py:211-267 | the loops compute exactly the layout once the phrases are chosen |
| DocumentFlashcard.ShortTextNoCards | app/generators/document_flashcard_generator.py:17-20 | stripped text shorter than 50 characters yields no cards |
| DocumentFlashcard.FallbackFollowsFlag | app/generators/document_flashcard_generator.py:30-41 | when both model paths give nothing: the cleaned rule-based list of the stripped text if the flag is on, nothing if it is off, an exception if it is undefined |
| DocumentFlashcard.GeneratedCardsShape | app/generators/document_flashcard_generator.py:12-57 | whatever path is taken, every card is a Q&A card whose question ends in `?`, and there are at most `max(count, 1)` for a non-negative count |
| DocumentExercise.SectionMarksValid | app/generators/document_exercise_generator.py:191 | the section separators are case-insensitive literals the splitter accepts |
| DocumentExercise.Group1 | app/generators/document_exercise_generator.py:210-222 | the stripped group of a successful search, and "" when the search fails |
| DocumentExercise.Assemble | app/generators/document_exercise_generator.py:225-239 | an exercise exactly when type, question and answer are non-empty; an empty instruction becomes "Complete this <type> exercise."; a matching exercise gets the placeholder lists and pairs |
| DocumentExercise.SectionExerciseShape | app/generators/document_exercise_generator.py:198-241 | a parsed exercise's type is the section's non-empty leading word, its question the text after a Question label, its instruction never empty; a matching one gets the placeholder lists |
| DocumentExercise.ParsedExercises | app/generators/document_exercise_generator.py:186-243 | `_parse_simple_format` gives at most `expected_count` exercises, each the exercise of a non-blank section, with a type, a question and an instruction |
| DocumentExercise.ParseEndsAtBlank | app/generators/document_exercise_generator.py:193-196 | the loop ends at the first blank section: later sections are never parsed |
| DocumentExercise.LeadingMarkerYieldsNothing | app/generators/document_exercise_generator.py:191-196 | a response that starts with `Type:` or `Exercise:`, in any case, yields no exercise at all |
| DocumentExercise.BlankFirstYieldsNothing | app/generators/document_exercise_generator.py:193-196 | a blank first section yields no exercise |
| DocumentExercise.ParseSimpleFormat | app/generators/document_exercise_generator.py:186-243 | the method computes exactly the specification of `_parse_simple_format` |
| DocumentExercise.ParseExerciseSections | app/generators/document_exercise_generator.py:193-241 | the section loop computes exactly the parse that stops at a blank section or the count |
| DocumentExercise.ParseSection | app/generators/document_exercise_generator.py:198-241 | one section yields exactly its exercise |
| DocumentExercise.CleanText | app/generators/document_exercise_generator.py:376-398 | the cleaned text is empty or stripped, single-spaced and ends in `.`, `!` or `?` |
| DocumentExercise.CleanEach | app/generators/document_exercise_generator.py:366-367 | each item's `str` form cleaned, one per item, in order |
| DocumentExercise.CleanTruthy | app/generators/document_exercise_generator.py:349 | no more items than given, each cleaned |
| DocumentExercise.CleanTruthyKeepsAll | app/generators/document_exercise_generator.py:349 | with no falsy item, every item is kept, cleaned, in order |
| DocumentExercise.CleanAnswer | app/generators/document_exercise_generator.py:345-349 | a string answer is cleaned; a list answer is cleaned item by item without its falsy items; any other is kept |
| DocumentExercise.Draft | app/generators/document_exercise_generator.py:335-349 | the assembled exercise has a stripped type, cleaned instruction and question, and no extra lists yet |
| DocumentExercise.ItemPairing | app/generators/document_exercise_generator.py:362-367 | the extra lists are given only when `concepts` and `definitions` are both truthy, and then are those entries cleaned |
| DocumentExercise.Vet | app/generators/document_exercise_generator.py:352-369 | an exercise is kept exactly when `_is_valid_exercise` holds; raising only comes from a valid matching exercise's extra lists |
| DocumentExercise.CleanExercise | app/generators/document_exercise_generator.py:334-372 | one loop pass raises exactly when a field has the wrong type or a kept matching exercise's lists cannot be iterated; a kept exercise is valid and built from the cleaned fields |
| DocumentExercise.CleanIsNoVerdict | app/generators/document_exercise_generator.py:412-414 | a cleaned text is never "true" or "false" in any case |
| DocumentExercise.CleanAnswerText | app/generators/document_exercise_generator.py:345-346 | a cleaned answer that is a string is a cleaned text |
| DocumentExercise.TrueFalseNeverKept | app/generators/document_exercise_generator.py:345-346 | as written, a true/false exercise never survives the cleaner: its cleaned answer ends in punctuation, so it is never "true" or "false" |
| DocumentExercise.IntendedAnswer | app/generators/document_exercise_generator.py:345-349 | the corrected cleaner only strips a true/false string answer, and cleans every other answer as written |
| DocumentExercise.CleanExerciseIntended | app/generators/document_exercise_generator.py:334-372 | the corrected pass raises only on a field of the wrong type or a matching exercise, and keeps only validated exercises |
| DocumentExercise.TrueFalseKeptWhenIntended | app/generators/document_exercise_generator.py:400-422 | with the corrected cleaner, a true/false item whose stripped answer is "true" or "false" and whose cleaned instruction and question are long enough is kept with its answer |
| DocumentExercise.RecordFields | app/generators/document_exercise_generator.py:335-338 | the type, instruction and question of a built dict are strings |
| DocumentExercise.RecordPairing | app/generators/document_exercise_generator.py:362-367 | the extra lists of a built dict are lists or absent, so the pairing step never raises on it |
| DocumentExercise.PairingOfLists | app/generators/document_exercise_generator.py:362-367 | two lists, or two absent keys, never make the pairing step raise |
| DocumentExercise.CleanExerciseOfRecord | app/generators/document_exercise_generator.py:334-372 | a dict built by this module never makes the cleaner raise |
| DocumentExercise.CleanAndValidateExercises | app/generators/document_exercise_generator.py:330-374 | the method computes exactly the cleaning pass |
| DocumentExercise.CleanedExercises | app/generators/document_exercise_generator.py:330-374 | at most `max(target_count, 1)` exercises, each accepted by the validator and never of type true/false, each the cleaned form of an input, in input order |
| DocumentExercise.PhrasesFitAll | app/generators/document_exercise_generator.py:256-326 | every language's phrases are long enough for the validator |
| DocumentExercise.ExerciseLayoutShape | app/generators/document_exercise_generator.py:245-328 | exactly `count` exercises for a non-negative count, each with a string answer, the fill-in-the-blank ones for the leading concepts first, in ranking order |
| DocumentExercise.ExerciseLayoutTail | app/generators/document_exercise_generator.py:280-328 | then the true/false ones, one per leading long sentence with answers alternating from "true", then the short-answer exercises |
| DocumentExercise.ExerciseLayoutValid | app/generators/document_exercise_generator.py:245-328 | with concepts of at least two characters, every rule-based exercise passes `_is_valid_exercise` as built |
| DocumentExercise.RuleBasedExercisesValid | app/generators/document_exercise_generator.py:245-328 | every exercise `_generate_rule_based_exercises` builds passes `_is_valid_exercise`, and there are `count` of them |
| DocumentExercise.RuleBasedExercises | app/generators/document_exercise_generator.py:245-328 | the method computes exactly the rule-based list |
| DocumentExercise.FillExerciseLayout | app/generators/document_exercise_generator.py:256-328 | the loops compute exactly the layout once the phrases are chosen |
| DocumentExercise.ShortTextNoExercises | app/generators/document_exercise_generator.py:18-21 | stripped text shorter than 50 characters yields no exercises |
| DocumentExercise.FallbackFollowsFlag | app/generators/document_exercise_generator.py:31-42 | when both model paths give nothing: the cleaned rule-based list of the stripped text if the flag is on, nothing if it is off, an exception if it is undefined |
| DocumentExercise.GeneratedExercisesShape | app/generators/document_exercise_generator.py:13-59 | whatever path is taken, every exercise passes `_is_valid_exercise` and carries extra lists only when matching, and there are at most `max(count, 1)` for a non-negative count |
| RuleBased.Fill | app/generators/document_quiz_generator.py:252 | a phrase with a hole holds `x` between its two parts; a fixed phrase is itself |
| RuleBased.Each | app/generators/document_quiz_generator.py:234-266 | one item per element, in order |
| RuleBased.EachIndexed | app/generators/document_exercise_generator.py:280-302 | one item per element and its index, in order |
| RuleBased.Repeat | app/generators/document_exercise_generator.py:304-326 | `max(n, 0)` copies of the filler |
| RuleBased.LayoutShape | app/generators/document_quiz_generator.py:223-340 | exactly `count` items for a non-negative count: the concept items for the leading concepts in order, then the sentence items in order, then the filler |
| RuleBased.FillLayout | app/generators/document_quiz_generator.py:233-340 | the concept loop, the sentence loop and the padding loop compute exactly the layout, cut to `count` |
| RuleBased.FillLayoutCounted | app/generators/document_exercise_generator.py:252-328 | the three counted loops of the exercise generator compute exactly the layout, cut to `count` |
| ExerciseGen.ImportantWords | app/generators/exercise_generator.py:50 | exactly the words of more than four letters that are all alphabetic, in order |
| ExerciseGen.Choice | app/generators/exercise_generator.py:52 | `random.choice` returns an element of the list |
| ExerciseGen.FillBlankForSpec | app/generators/exercise_generator.py:45-70 | a sentence gives an exercise exactly when it has more than eight words and an important one; the exercise blanks that word, which is its answer |
| ExerciseGen.BlankHidesAnswer | app/generators/exercise_generator.py:53 | no blanked answer is left in the exercise text, since an alphabetic word shares no character with the blank |
| ExerciseGen.FillBlankRunSpec | app/generators/exercise_generator.py:45-70 | the loop keeps what it had and adds at most one exercise per remaining sentence, each good for one of those sentences |
| ExerciseGen.FillBlanksSpec | app/generators/exercise_generator.py:41-72 | at most three fill-in-the-blank exercises, each blanking an important word of one of the first three sentences, a sentence of more than eight words |
| ExerciseGen.FillBlankLoop | app/generators/exercise_generator.py:45-70 | the loop computes exactly the run of the turns, moving the clock on by one draw per exercise |
| ExerciseGen.GenerateFillBlank | app/generators/exercise_generator.py:41-72 | the method computes exactly the fill-in-the-blank specification |
| ExerciseGen.Statement | app/generators/exercise_generator.py:78-95 | a sentence's true/false exercise states the sentence and is answered "True" |
| ExerciseGen.TrueFalsesSpec | app/generators/exercise_generator.py:74-97 | the fourth to sixth sentences as statements answered "True": `max(0, min(len, 6) - 3)` of them |
| ExerciseGen.GenerateTrueFalse | app/generators/exercise_generator.py:74-97 | the method computes exactly the true/false specification |
| ExerciseGen.AnswerForSpec | app/generators/exercise_generator.py:113 | the answer is the first sentence that mentions the concept, case-insensitively, or the first sentence when none does |
| ExerciseGen.ShortAnswersSpec | app/generators/exercise_generator.py:99-125 | none without sentences; otherwise one per leading concept, at most two, each answered by the first sentence that mentions it |
| ExerciseGen.GenerateShortAnswer | app/generators/exercise_generator.py:99-125 | the method computes exactly the short-answer specification |
| ExerciseGen.Truncated | app/generators/exercise_generator.py:140 | a definition of at most 100 characters is kept; a longer one becomes its first 100 characters and "...", 103 in all |
| ExerciseGen.DefinitionOf | app/generators/exercise_generator.py:139-140 | a definition has at most 103 characters |
| ExerciseGen.DefinitionSpec | app/generators/exercise_generator.py:139-140 | the definition is the first mentioning sentence, or "Related to" the concept, truncated |
| ExerciseGen.Zip | app/generators/exercise_generator.py:153 | `dict(zip(...))` has exactly the concepts as keys, and for distinct keys maps each to its value |
| ExerciseGen.MatchingSpec | app/generators/exercise_generator.py:127-159 | a matching exercise exists exactly when there are four concepts; it pairs the first four with definitions of at most 103 characters, and for distinct concepts maps each to its definition |
| ExerciseGen.GenerateMatching | app/generators/exercise_generator.py:127-159 | the method computes exactly the matching specification |
| ExerciseGen.ExercisesOfSpec | app/generators/exercise_generator.py:20-32 | for distinct concepts, at most 3 + 3 + 2 + 1 = 9 exercises, each keeping its kind's promise |
| ExerciseGen.ExercisesSpec | app/generators/exercise_generator.py:9-39 | nothing for a stripped text shorter than 50 characters; at most 9 exercises; each keeps its kind's promise about the sentences |
| ExerciseGen.GenerateFromSentences | app/generators/exercise_generator.py:20-32 | the four helpers, extended one after another, compute exactly the specification |
| ExerciseGen.GenerateExercises | app/generators/exercise_generator.py:9-39 | the method computes exactly `generate_exercises`' specification |
| QuizGen.Swap | app/generators/quiz_generator.py:42 | a swap keeps the length |
| QuizGen.SwapPermutes | app/generators/quiz_generator.py:42 | a swap is a permutation |
| QuizGen.FisherYates | app/generators/quiz_generator.py:42 | the shuffle steps keep the length |
| QuizGen.FisherYatesPermutes | app/generators/quiz_generator.py:42 | the shuffle steps are a permutation |
| QuizGen.Shuffle | app/generators/quiz_generator.py:73 | `random.shuffle` leaves a permutation of the list, whatever is drawn |
| QuizGen.ShuffleOne | app/generators/quiz_generator.py:73 | shuffling a single item leaves it alone |
| QuizGen.Others | app/generators/quiz_generator.py:72 | no more candidates than sentences |
| QuizGen.OthersSpec | app/generators/quiz_generator.py:72 | every candidate distractor is another sentence with more than five words, and every such sentence is a candidate |
| QuizGen.OthersComplete | app/generators/quiz_generator.py:72 | every sentence at another index with more than five words is among the candidate distractors |
| QuizGen.Padded | app/generators/quiz_generator.py:77-83 | the padding gives exactly three distractors: the given ones, then numbered fillers |
| QuizGen.TakeSome | app/generators/quiz_generator.py:74 | the first `n` items of a list are some of its items |
| QuizGen.DistractorsLayout | app/generators/quiz_generator.py:67-85 | the distractors are the first three shuffled candidates, then fillers |
| QuizGen.DistractorsSpec | app/generators/quiz_generator.py:67-85 | exactly three distractors: up to three distinct candidates, each another sentence with more than five words, then numbered fillers |
| QuizGen.GenerateDistractors | app/generators/quiz_generator.py:67-85 | the method computes exactly the distractor specification, and the clock after its shuffle |
| QuizGen.QuestionTextFirstEight | app/generators/quiz_generator.py:87-96 | only the first eight words count: sentences agreeing on them get the same question |
| QuizGen.QuestionTextEmbeds | app/generators/quiz_generator.py:96 | the English question embeds exactly the first eight words: splitting its middle gives them back |
| QuizGen.MakeQuizSpec | app/generators/quiz_generator.py:37-54 | a sentence's quiz has four options that are a permutation of the distractors and the sentence, the sentence as answer, and the question built from it |
| QuizGen.MakeQuizGood | app/generators/quiz_generator.py:28-54 | the quiz of a sentence among the first six that the loop does not pass over has four options holding its answer, that sentence, and the question built from it |
| QuizGen.Build | app/generators/quiz_generator.py:28-58 | one quiz per pick |
| QuizGen.PicksSpec | app/generators/quiz_generator.py:28-31 | the loop picks each sentence at most once, in increasing order, only among the first six that are not passed over |
| QuizGen.PicksPrefix | app/generators/quiz_generator.py:28-58 | the loop only appends to the picks it already has |
| QuizGen.PicksComplete | app/generators/quiz_generator.py:28-58 | every sentence among the first six that the loop does not pass over is picked |
| QuizGen.LoopPicksSpec | app/generators/quiz_generator.py:28-58 | the loop's picks rise strictly and hold every sentence among the first six with at least eight words whose call did not raise |
| QuizGen.BuildGood | app/generators/quiz_generator.py:28-58 | every quiz built from good picks is a good one |
| QuizGen.BuildAt | app/generators/quiz_generator.py:28-58 | quiz `k` is the one of pick `k` |
| QuizGen.QuizzesSpec | app/generators/quiz_generator.py:14-65 | a stripped text shorter than 100 characters gives no quizzes; otherwise at most six, each with four options holding the answer, one of the first six sentences with at least eight words, and the question built from it |
| QuizGen.QuizzesOnePerSentence | app/generators/quiz_generator.py:14-65 | a long enough text gives exactly one quiz per sentence among the first six with at least eight words whose call did not raise, in sentence order, each answering with its sentence |
| QuizGen.QuizzesBuild | app/generators/quiz_generator.py:61 | the final slice to eight never drops a quiz: the result is the quiz of every pick |
| QuizGen.BuildAnswers | app/generators/quiz_generator.py:38-54 | quiz `k` answers with the sentence of pick `k` |
| QuizGen.PicksSkip | app/generators/quiz_generator.py:30-31 | a sentence passed over adds nothing |
| QuizGen.PicksTake | app/generators/quiz_generator.py:33-54 | a sentence not passed over is picked at the current clock |
| QuizGen.QuizFor | app/generators/quiz_generator.py:33-54 | the loop body computes exactly the sentence's quiz and the clock after its shuffles |
| QuizGen.QuizzesOfBuild | app/generators/quiz_generator.py:28-58 | the quizzes of the picks are the ones `Build` gives |
| QuizGen.LoopStep | app/generators/quiz_generator.py:28-58 | one pass of the loop keeps its invariant |
| QuizGen.LoopDone | app/generators/quiz_generator.py:28-58 | at the end of the loop the quizzes are exactly those built from all picks |
| QuizGen.QuizLoop | app/generators/quiz_generator.py:28-58 | the loop computes exactly the quizzes built from the picks |
| QuizGen.GenerateQuizzes | app/generators/quiz_generator.py:14-65 | the method computes exactly `generate_quizzes`' specification |
| FlashcardGen.QaCard | app/generators/flashcard_generator.py:160-165 | a parsed card holds the question and answer, with type "Q&A" and difficulty "beginner" |
| FlashcardGen.Last | app/generators/flashcard_generator.py:187-193 | the after-the-loop check saves one card exactly when the pair is full |
| FlashcardGen.PrimaryKeepsNoAnswer | app/generators/flashcard_generator.py:151-193 | the pending answer is always empty between sections, so both "save the previous card" checks never fire, and each card pairs a question section with the section right after it |
| FlashcardGen.ParsePrimary | app/generators/flashcard_generator.py:151-193 | the primary loop computes exactly its specification |
| FlashcardGen.Method1RepeatsLastPair | app/generators/flashcard_generator.py:232-255 | as written, when the pair saved at a question line reaches `needed`, Method 1 ends with that card twice |
| FlashcardGen.NoQuestionWord | app/generators/flashcard_generator.py:231 | no question word starts with a letter outside "whcdias", in either case |
| FlashcardGen.StripsItself | app/generators/flashcard_generator.py:225 | a line that starts and ends with a visible character is its own `strip()` |
| FlashcardGen.CellLines | app/generators/flashcard_generator.py:230-246 | the two question lines of the example are question lines, and its answer line is an answer line |
| FlashcardGen.Method1TwoForOne | app/generators/flashcard_generator.py:222-255 | the lines "What is a cell?", "The unit of life." and "What is DNA?", asked for one card, give the first card twice |
| FlashcardGen.LineStepShape | app/generators/flashcard_generator.py:224-247 | one line keeps the state well formed and short of `needed`, or stops at most one card over |
| FlashcardGen.Method1ScanBound | app/generators/flashcard_generator.py:222-255 | as written Method 1 can return one card more than `needed`, and then its last two cards are the same; with the fix it never exceeds `needed` |
| FlashcardGen.Method1FixedBound | app/generators/flashcard_generator.py:222-255 | with the fix Method 1 never returns more than `needed` cards, each a question line with an answer line |
| FlashcardGen.Method1Overshoot | app/generators/flashcard_generator.py:222-255 | as written Method 1 returns at most one card over `needed`, and then the last one repeats |
| FlashcardGen.LongSentences | app/generators/flashcard_generator.py:265-266 | every kept sentence is longer than 20 characters |
| FlashcardGen.Questioned | app/generators/flashcard_generator.py:274-275 | the question ends in `?`: the sentence itself when it does, the sentence and `?` otherwise |
| FlashcardGen.PairCards | app/generators/flashcard_generator.py:268-285 | one card per sentence pair |
| FlashcardGen.PairsSpec | app/generators/flashcard_generator.py:268-285 | Method 2 appends, in order, the cards pairing sentences `i` and `i + 1` for `i = 0, 2, 4, ...`, each question ending in `?` |
| FlashcardGen.AlternativeFixedBound | app/generators/flashcard_generator.py:214-288 | with the fixed Method 1 the alternative parse never returns more than `needed_count` cards |
| FlashcardGen.PairsBound | app/generators/flashcard_generator.py:268-285 | Method 2 stops at `needed` |
| FlashcardGen.AlternativeLines | app/generators/flashcard_generator.py:221-255 | the Method 1 loop computes exactly Method 1 as written |
| FlashcardGen.AlternativeSentences | app/generators/flashcard_generator.py:259-285 | the Method 2 branch computes exactly its specification |
| FlashcardGen.PairSentences | app/generators/flashcard_generator.py:268-285 | the `range(0, m, 2)` loop computes exactly the pairing |
| FlashcardGen.ParseAlternativeFormat | app/generators/flashcard_generator.py:214-288 | the method computes exactly `_parse_alternative_format` as written |
| FlashcardGen.FilterLong | app/generators/flashcard_generator.py:205-208 | the kept cards have question and answer longer than 5 characters, no more than given |
| FlashcardGen.FilterLongFrom | app/generators/flashcard_generator.py:205-208 | the final check keeps only input cards |
| FlashcardGen.FilterLongAll | app/generators/flashcard_generator.py:205-208 | the final check keeps every card when each passes |
| FlashcardGen.ParsedMultiple | app/generators/flashcard_generator.py:136-212 | at most `expected_count` cards for a non-negative count, each with question and answer longer than 5 characters; with enough primary cards the alternative parse is not consulted |
| FlashcardGen.PrimaryCardsShaped | app/generators/flashcard_generator.py:151-212 | a primary card passes the final check when its question and answer are longer than 5 characters |
| FlashcardGen.FinalCheck | app/generators/flashcard_generator.py:205-212 | the final loop and cut compute exactly the first `expected_count` long-enough cards |
| FlashcardGen.ParseMultipleFlashcards | app/generators/flashcard_generator.py:136-212 | the method computes exactly `_parse_multiple_flashcards` |
| FlashcardGen.ValidAnswerEnds | app/generators/flashcard_generator.py:366-371 | a valid answer ends in `.` or `!` |
| FlashcardGen.CleanFlashcard | app/generators/flashcard_generator.py:294-312 | one loop pass raises exactly when a field has the wrong type; a card is kept exactly when `_is_valid_flashcard` holds of the cleaned fields, and is built from them |
| FlashcardGen.CleanAndValidateFlashcards | app/generators/flashcard_generator.py:290-314 | the method computes exactly the cleaning pass |
| FlashcardGen.CleanedFlashcards | app/generators/flashcard_generator.py:290-314 | at most `max(target_count, 1)` cards, each valid, in input order |
| FlashcardGen.ShortTextNoFlashcards | app/generators/flashcard_generator.py:17-20 | stripped text shorter than 50 characters yields no cards |
| FlashcardGen.RecordsNeverRaise | app/generators/flashcard_generator.py:290-314 | cleaning the dicts of cards this generator built never raises |
| FlashcardGen.GeneratedFromParsed | app/generators/flashcard_generator.py:22-38 | with cards parsed from the response, those are what gets cleaned |
| FlashcardGen.GeneratedFromRules | app/generators/flashcard_generator.py:27-34 | with nothing parsed, the rule-based cards are what gets cleaned; there is no flag |
| FlashcardGen.GeneratedFlashcardsSource | app/generators/flashcard_generator.py:12-43 | for text of at least 50 characters the call never raises: the result is the cleaned parsed cards, or the cleaned rule-based cards when the parse gives none |
| FlashcardGen.GeneratedFlashcardsValid | app/generators/flashcard_generator.py:12-43 | every card returned is valid, and there are at most `max(count, 1)` |
| TopicPrompts.Complexity | app/generators/topic_content_generator.py:43-49 | the guide is one of the three, and an unknown difficulty gets the beginner one |
| TopicPrompts.UnknownDifficultyIsBeginner | app/generators/topic_content_generator.py:49 | an unknown difficulty is guided as a beginner one |
| TopicPrompts.ContextLine | app/generators/topic_content_generator.py:70-71 | the context line is empty exactly when the description is falsy |
| TopicPrompts.TopicPrompt | app/generators/topic_content_generator.py:40-77 | the prompt starts with the head naming the topic and the title-cased difficulty, and ends with the closing paragraph naming the difficulty |
| TopicPrompts.PromptContext | app/generators/topic_content_generator.py:70-71 | a description only inserts `Additional Context: <description>` and a blank line, spliced in after the list |
| TopicPrompts.PromptHasContextIff | app/generators/topic_content_generator.py:70-71 | when topic and difficulty do not spell it, the prompt holds `Additional Context:` exactly when the description is truthy |
| TopicPrompts.PromptFocus | app/generators/topic_content_generator.py:51-55 | the "Focus on" line names the difficulty's complexity guide |
| TopicPrompts.FallbackPrompt | app/generators/topic_content_generator.py:94-108 | the fallback prompt opens by naming the topic and the difficulty, names the topic again in the definition request, and ends with `Additional context: <description>` when the description is truthy, otherwise with the closing instructions |
| TopicPrompts.FallbackPromptContext | app/generators/topic_content_generator.py:107-108 | a truthy description ends the fallback prompt; a falsy one leaves it as without one |
| TopicPrompts.SummaryPrompt | app/generators/topic_content_generator.py:129-139 | the summary prompt is at most 500 characters longer than its fixed text and the topic |
| TopicPrompts.SummaryPromptQuotes | app/generators/topic_content_generator.py:129-131 | the prompt names the topic, then quotes exactly the first `min(500, len(content))` characters of the content between its fixed texts |
| TopicContent.TopicContentOf | app/generators/topic_content_generator.py:11-38 | the content returned is stripped |
| TopicContent.TopicContentSpec | app/generators/topic_content_generator.py:26-34 | the fallback prompt is sent exactly when the first reply stripped is shorter than 100 characters; otherwise the result is that reply stripped; the fallback reply is taken however short |
| TopicContent.SecondPiece | app/generators/topic_content_generator.py:170 | `split(marker)[1]` succeeds exactly when the marker occurs |
| TopicContent.FirstLine | app/generators/topic_content_generator.py:170 | `split("\n")[0]` holds no newline |
| TopicContent.PieceSpec | app/generators/topic_content_generator.py:170 | cutting at the first marker and then at the first newline yields the line after the marker |
| TopicContent.LowerKeepsMarker | app/generators/topic_content_generator.py:180 | a marker without capitals occurs in the lower-cased text wherever it occurs in the text |
| TopicContent.MarkedSpec | app/generators/topic_content_generator.py:180-181 | a field is found exactly when the summary holds the lower-case marker as written, and is then the line after it |
| TopicContent.CommaItems | app/generators/topic_content_generator.py:182 | every item is non-empty and stripped |
| TopicContent.MainTheme | app/generators/topic_content_generator.py:166-175 | the theme is stripped |
| TopicContent.MainThemeSpec | app/generators/topic_content_generator.py:166-175 | the stripped line after the first `Main theme:`, else after the first `Main theme`, else "Educational content" |
| TopicContent.LearningObjectives | app/generators/topic_content_generator.py:177-185 | every objective is non-empty and stripped |
| TopicContent.DifficultyAssessment | app/generators/topic_content_generator.py:187-195 | the assessment is stripped |
| TopicContent.StudyTime | app/generators/topic_content_generator.py:197-205 | the study time is stripped |
| TopicContent.Prerequisites | app/generators/topic_content_generator.py:207-215 | every prerequisite is non-empty and stripped |
| TopicContent.ListExtractorsSpec | app/generators/topic_content_generator.py:177-215 | a summary without the lower-case marker as written gives the default; one with it gives the comma-separated items of the line after it |
| TopicContent.TextExtractorsSpec | app/generators/topic_content_generator.py:187-205 | the stripped line after the marker, or the default |
| TopicContent.CommaItemsOfJoin | app/generators/topic_content_generator.py:182 | items listed with `", "` between them are read back as they were |
| TopicContent.TopicSummaryOf | app/generators/topic_content_generator.py:117-164 | the summary names the topic and the content's length; a raising model call gives the default summary; otherwise each field is its extractor's result |
| FileProcessing.ValidTypes | app/routes/file_processing.py:27 | exactly the known kinds among those asked for |
| FileProcessing.ValidTypesInOrder | app/routes/file_processing.py:27 | the filter keeps the order of the request |
| FileProcessing.CardTypes | app/routes/file_processing.py:22-28 | the card types are never empty and all known |
| FileProcessing.CardTypesSpec | app/routes/file_processing.py:22-28 | no field means flashcards only; with none known, flashcards only; otherwise the known ones, in the order asked |
| FileProcessing.Part | app/routes/file_processing.py:86-102 | one kind contributes at most one field |
| FileProcessing.PartSpec | app/routes/file_processing.py:86-102 | a kind's field is present exactly when it is asked for and its list is non-empty, and is then that list |
| FileProcessing.HasKeyOfParts | app/routes/file_processing.py:83-102 | the three parts have distinct keys, each coming from one of them |
| FileProcessing.PartsFieldsOf | app/routes/file_processing.py:83-102 | the three parts together are the response dict's fields |
| FileProcessing.AssembledSpec | app/routes/file_processing.py:83-102 | raising exactly when a kind is asked for and the content is not a dict; a key is present exactly when its kind was asked for and its list is non-empty, copied as it is; no other key, none twice; the total is the number of items |
| FileProcessing.AddPart | app/routes/file_processing.py:86-102 | one kind's step raises on a non-dict, and otherwise adds its field and its count exactly when asked for and non-empty |
| FileProcessing.ItemCountAppend | app/routes/file_processing.py:90-102 | appending fields adds their items to the count |
| FileProcessing.Assemble | app/routes/file_processing.py:83-102 | the three steps compute exactly the response dict and total |
| FileProcessing.Extension | app/routes/file_processing.py:60 | a name with no `.` is its own extension, lower-cased |
| FileProcessing.ExtensionAfterLastDot | app/routes/file_processing.py:60 | the extension is the text after the last `.`, lower-cased, for every name |
| Text.SplitLast | app/routes/file_processing.py:60 | the last piece of `split` on one character is the text after its last occurrence, or the whole text when it is absent |
| FileProcessing.KindName | app/text_extractor.py:27 | the kind an extractor names in its error is the extension in capitals |
| FileProcessing.ExtractTextSpec | app/text_extractor.py:9-105 | only an unknown extension is refused as unsupported; a known kind whose parsing raises is refused with 400 "Error processing <KIND> file"; otherwise the text is cleaned: empty exactly when the parsed text is blank, with plain spaces as its only whitespace |
| FileProcessing.ValidatedIsExtractable | app/text_extractor.py:92-105 | every extension the route accepts is one the dispatcher handles, so its own "Unsupported file type" is never reached from the route |
| FileProcessing.ProcessFile | app/routes/file_processing.py:30-119 | the method computes exactly the endpoint's response |
| FileProcessing.GenerateAndAssemble | app/routes/file_processing.py:74-113 | generation, translation and assembly compute exactly the response for the extracted text |
| FileProcessing.FinishSpec | app/routes/file_processing.py:82-119 | a successful response holds at least one item, each field a non-empty list under a requested kind; the only errors are 422 (nothing generated) and 500; when generation succeeds the answer is 422 exactly when the assembled total is zero, and an exception in generation or assembly is always 500 |
| FileProcessing.AssembledKinds | app/routes/file_processing.py:83-102 | every assembled list sits under a requested kind and is non-empty |
| FileProcessing.RespondSpec | app/routes/file_processing.py:52-119 | an unsupported language, then an unsupported file type, are refused with 400 before the upload is read; a failed upload read is 500; a document the extractor cannot parse is 400 "Error processing <KIND> file", passed through unchanged; blank text is 400; then the content is generated in English and translated unless English |
| FileProcessing.RespondContent | app/routes/file_processing.py:104-113 | a successful response holds at least one item, only under requested kinds |
| FileProcessing.RespondNormalisesDifficulty | app/routes/file_processing.py:57 | two difficulties that normalise alike give the same response |
| FileProcessing.RespondEnglishUntranslated | app/routes/file_processing.py:78-80 | English content is never translated |
| DotEnv.EnvFile.constructor | configure_ai_priority.py:20-22 | a `.env` file is whether it exists and its lines |
| FallbackConfig.Position | configure_fallbacks.py:16-22 | the index of the key in the dictionary, or -1 exactly when it is absent |
| FallbackConfig.PositionOfDistinct | configure_fallbacks.py:16-22 | in a dictionary without repeated keys, the key at an index is found there |
| FallbackConfig.PutSpec | configure_fallbacks.py:22 | after `env_vars[key] = value` the key maps to the value and every other key to what it did; no key repeats; a present key keeps its position and a new one goes at the end |
| FallbackConfig.PutSame | configure_fallbacks.py:22 | setting a key to the value it has changes nothing |
| FallbackConfig.PutAllSpec | configure_fallbacks.py:25-28 | after the assignments a key maps to its new value when it has one, and to what it did otherwise |
| FallbackConfig.PutAllSame | configure_fallbacks.py:25-28 | assignments the dictionary already agrees with change nothing |
| FallbackConfig.PutAllIdempotent | configure_fallbacks.py:25-28 | making the same assignments twice is making them once |
| FallbackConfig.ParseLine | configure_fallbacks.py:20-22 | a line is read exactly when it holds `=` and its stripped form does not start with `#`; the key, `=` and the value make up the stripped line, and the key holds no `=` |
| FallbackConfig.ReadSettings | configure_fallbacks.py:16-22 | the reading loop computes exactly the dictionary of the lines |
| FallbackConfig.Entries | configure_fallbacks.py:35-36 | one `key=value` line per setting, in dictionary order |
| FallbackConfig.WriteSettings | configure_fallbacks.py:31-36 | the file written is the two header comments, a blank line, then the setting lines |
| FallbackConfig.ParseEntryLine | configure_fallbacks.py:20-22 | a written setting line reads back as the same key and value |
| FallbackConfig.HeaderSkipped | configure_fallbacks.py:32-33 | the two comment lines and the empty line are skipped by the reader |
| FallbackConfig.ParseIntoSkips | configure_fallbacks.py:19-22 | lines the reader skips do not change the dictionary |
| FallbackConfig.ParseIntoEntries | configure_fallbacks.py:19-22 | the setting lines of a well-formed dictionary add its entries in order |
| FallbackConfig.ParsedOfWritten | configure_fallbacks.py:16-36 | reading a written file gives back its settings |
| FallbackConfig.ParseLineReadable | configure_fallbacks.py:20-22 | a parsed line is a setting that reads back as itself |
| FallbackConfig.PutWellFormed | configure_fallbacks.py:22 | assigning a readable setting keeps a dictionary well formed |
| FallbackConfig.ParseIntoWellFormed | configure_fallbacks.py:19-22 | every dictionary the reader builds is well formed |
| FallbackConfig.PutAllWellFormed | configure_fallbacks.py:25-28 | assigning several readable settings keeps a dictionary well formed |
| FallbackConfig.OverridesWellFormed | configure_fallbacks.py:25-28 | the overrides of both modes have distinct keys and readable values |
| FallbackConfig.RewrittenSpec | configure_fallbacks.py:10-36 | the file a mode writes reads back as the old settings with the mode's overrides applied, and running the mode again writes the same file |
| FallbackConfig.QualityModeSpec | configure_fallbacks.py:25-28 | quality mode turns OpenRouter and Gemini on and both fallbacks off; every other setting is kept |
| FallbackConfig.FallbackModeSpec | configure_fallbacks.py:68-70 | fallback mode turns OpenRouter and both fallbacks on and keeps every other setting, Gemini's included |
| FallbackConfig.ConfigureForQualityContent | configure_fallbacks.py:10-36 | the file exists afterwards and holds the quality header and the old settings with the quality overrides |
| FallbackConfig.ConfigureForFallbacks | configure_fallbacks.py:54-78 | the file exists afterwards and holds the fallback header and the old settings with the fallback overrides |
| PriorityConfig.CurrentPriority | configure_ai_priority.py:10-13 | never empty; with the variable set, its pieces joined with commas give it back |
| PriorityConfig.SplitJoinComma | configure_ai_priority.py:13-17 | names without commas, joined with commas, split back into the same names |
| PriorityConfig.CurrentPriorityDefault | configure_ai_priority.py:12 | with the variable unset the services are tried in the default order |
| PriorityConfig.DefaultJoin | configure_ai_priority.py:12 | the default setting is the comma-join of the default order |
| PriorityConfig.PriorityLine | configure_ai_priority.py:31 | the line written starts with `AI_MODEL_PRIORITY=` |
| PriorityConfig.FirstSetting | configure_ai_priority.py:29-33 | the first line starting with `AI_MODEL_PRIORITY=`, or -1 exactly when there is none |
| PriorityConfig.WithPrioritySpec | configure_ai_priority.py:22-41 | only the first priority line is replaced and every other line is kept; with none, exactly one is appended at the end |
| PriorityConfig.WithPriorityReadBack | configure_ai_priority.py:15-37 | afterwards the first priority line holds the comma-joined list, and reading it back gives the list again when no name holds a comma |
| PriorityConfig.WithPriorityIdempotent | configure_ai_priority.py:22-41 | setting the same priority twice leaves the file as the first time did |
| PriorityConfig.SetPriority | configure_ai_priority.py:15-45 | the file exists afterwards; an existing one has its first priority line replaced or one appended, a missing one is created with that line alone |
| PriorityConfig.Normalised | configure_ai_priority.py:111 | each name stripped and lower-cased, one per piece |
| PriorityConfig.Known | configure_ai_priority.py:112-113 | only service names are kept |
| PriorityConfig.KnownAppend | configure_ai_priority.py:113 | the filter works name by name, keeping order and repeats of the known names |
| PriorityConfig.KnownSingle | configure_ai_priority.py:113 | one name is kept exactly when it names a service |
| PriorityConfig.CustomPriority | configure_ai_priority.py:108-113 | every name of the custom order is a service |
| PriorityConfig.Chosen | configure_ai_priority.py:99-125 | an order is written only when it is non-empty and all services; otherwise the file is left alone |
| PriorityConfig.ServicesCanonical | configure_ai_priority.py:112 | the service names are non-empty, stripped, lower-case and free of commas |
| PriorityConfig.CustomPriorityOfJoin | configure_ai_priority.py:108-116 | typing an order of services back at the custom prompt, comma-separated, selects that same order |
| PriorityConfig.CustomPriorityOfParts | configure_ai_priority.py:108-113 | custom input that is the comma-join of canonical names selects the known ones among those names |
| PriorityConfig.Configure | configure_ai_priority.py:99-125 | the chosen order is written with `set_priority`, and with none the file is unchanged |

## Left out

- The language model and its retry loop: each reply is an input string, or an `Outcome` for a call that may raise. Retries, sleeps and the loading of the local model are not modelled, because they are foreign calls and timing.
- Randomness: `random.shuffle` and `random.choice` read their numbers from an input `rand: nat -> nat` at ticks of a `clock`, so one choice of `rand` is one run. The shuffle is proved a permutation for every `rand`. The generator and its distribution are not modelled.
- The regular-expression engine:
  - every pattern the core applies is a function over its literal markers;
  - Python's Unicode `\w` and `str.isalpha` are predicate parameters;
  - the `re.findall` of capitalised words is an input sequence.
- `json.loads` is a parameter from the sliced, repaired text to an optional JSON value. The JSON decoder itself is not modelled.
- Text.Lower: lowers ASCII letters only. There is no Unicode case mapping, so `str.lower` is exact only on ASCII text.
- Text.Title: title-cases ASCII letters only, for the same reason as `Text.Lower`.
- Markers.CiEq: case-insensitive matching (`re.IGNORECASE`) folds ASCII letters only. Python's Unicode folds, such as `İ`, `ı`, `ſ` and the Kelvin sign `K`, are not modelled, because there are no Unicode case tables here.
- Markers.MatchLen: matches with `Markers.CiEq` when the pattern is flagged. It therefore inherits the ASCII-only folding, and the non-ASCII letters above can match differently in Python.
- Markers.DigitRun: `\d` is the ASCII digits `0` to `9`. Python's `\d` on `str` patterns also matches other Unicode decimal digits, such as `٣`, which are not modelled for the same reason.
- PriorityConfig.WithPriorityReadBack: the `.env` file is a list of lines. `writelines` gluing an appended `AI_MODEL_PRIORITY=` line onto a last line that has no final newline is therefore not modelled. This lemma holds over the line list.
- PriorityConfig.WithPriorityIdempotent: holds over the line list, for the reason given for `PriorityConfig.WithPriorityReadBack`.
- Translation: `translate_text` and `translate_generated_content` wrap an online translator. The route takes them as the parameter `translate`, which may raise.
- Reading the upload (`await file.read()`) is the parameter `read`, which may raise.
- The document libraries (PyMuPDF, python-docx, python-pptx) and the TXT decoding are the parameter `parse`. It gives each kind's raw text, or nothing when the library raises. The page, paragraph and shape loops that build that text are not modelled.
- File I/O in the configuration scripts:
  - `.env` is the `lines` field of `DotEnv.EnvFile`, with `present` saying whether the file was there;
  - opening, reading and writing the file are not modelled.
- The interactive menus, `input()` prompts and `print` output of both configuration scripts:
  - the menu choice and the typed custom order are parameters;
  - `print` output is not modelled, since it has no effect on the result.
- Logging in every module: it has no effect on results.
- FileProcessing.ProcessFile: an upload without a filename is not modelled, since the web framework supplies one. The route's `async` plumbing is not modelled either.
- The topic prompts are written over a `Wording` parameter that holds the fixed texts (`TopicPrompts.SourceWording` is the generator's). The lemmas hold for any wording, and the long literals are not spelled out in every proof.
- The key concepts that `quiz_generator.generate_quizzes` computes are never used by its loop, so they are not modelled.
- ExerciseGen.FillBlankLoop: the loop is proved for any turn function `step`. The draw-based turn of the source is one instance (`FillBlankStep`).
- `except` branches that no modelled input can reach, such as an `IndexError` on a list whose length was just checked, are not modelled.
- The unused multi-provider configuration and the `all_content_generator`, search, health and middleware modules are outside the modelled core.

## Findings

| source | as written | input that shows it | evidently intended | confidence | as-written member | corrected member |
|---|---|---|---|---|---|---|
| app/generators/flashcard_generator.py:232-255 | Method 1 of `_parse_alternative_format` saves the pending pair at a question line and breaks once `needed_count` is reached. It breaks before resetting `current_qa`, so the "add the last flashcard" step appends the same pair again. | the lines `What is a cell?`, `The unit of life.`, `What is DNA?` with `needed_count` 1 give two copies of the first card | return at most `needed_count` cards, with no duplicate | high (proved), not executed | FlashcardGen.Method1TwoForOne | FlashcardGen.Method1FixedBound |
| app/utils.py:12-16 | `clean_text` replaces every character outside `\w`, whitespace and the listed punctuation with a space, and only then rewrites `x\|y` to `xly`. No `\|` survives the first step, so the OCR fix never applies. | `a\|b` becomes `a b`, not `alb` | run the OCR fixes before the artifact removal, so `x\|y` becomes `xly` | high (proved), not executed | Cleaning.PipeFixIsDead | Cleaning.PipeFixApplies |
| app/generators/document_exercise_generator.py:395-396 | `_clean_text` appends `.` to every non-empty answer without terminal punctuation. The cleaned `true`/`false` answer of a true/false exercise therefore becomes `true.`/`false.`, which `_is_valid_exercise` (lines 412-414) rejects. | the exercise with type `true_false`, question `The sky is blue` and answer `true` | true/false statements with a `true`/`false` answer pass validation | high (proved), not executed | DocumentExercise.TrueFalseNeverKept | DocumentExercise.TrueFalseKeptWhenIntended |
