# EV charging assistant core, modelled in Dafny

This project models the core of a small chat assistant for applicants for
electric-vehicle charging stations. The core has three parts:

- **Intent classifier** (`intent_model.dfy`, module `IntentModel`). It strips the
  user's text and answers `("empty", 1.0, {})` for empty input. Otherwise it scans
  an ordered table of 13 weighted rules (11 distinct intents). It starts from
  `("fallback", 0.1)` and replaces the candidate only when a firing rule weighs
  strictly more. Two slots are then filled:
  - `app_id`: the leftmost `APP-` + 3–8 digits with word boundaries, upper-cased.
  - `message`: filled only for `progress_update`. The text after "APP-id `:`/`-`"
    is preferred; otherwise the text after `update` and its separators.

  Confidences are integer hundredths (10 = 0.1, 100 = 1.0). The app-id regex and
  the two message regexes get a precise meaning as predicates (`AppIdMatch`,
  `ColonFormMatch`, `UpdateFormMatch`). Hand-written scanners are proved to find
  what `re.search` finds: the leftmost start, and at that start the capture that
  greedy backtracking leaves.
- **Application store** (`app_store.dfy`, module `AppStore`). A class whose `data`
  map, from application id to record, is updated in place. `UpsertApplication`
  creates a record or overwrites its applicant and status. `AddProgress` appends
  to a record's log, or fails with `UnknownApplication` (the source's `KeyError`).
- **Knowledge base** (`knowledge_base.dfy`, module `KnowledgeBase`). FAQ rows are
  keyed by id; a fixed table maps six intents to FAQ ids.

Supporting modules:
- `text.dfy` (module `Text`) holds Python's whitespace set, `str.strip()`, ASCII
  case folding, greedy runs, and what the suffix `(.+)$` matches.
- `wrappers.dfy` holds `Option` and `Outcome`.

What is a parameter instead of code:
- The regex engine that searches the thirteen intent patterns is the parameter
  `search: (pattern, text) -> bool` of `Classify`.
- The patterns themselves are kept verbatim in `IntentPatterns`.
- The FAQ file's parsed rows are the argument `rows` of `ItemsOf`.

Points where the code's behaviour is easy to misread (the model follows the code):
- A progress entry is `{"message": m}`; the code stores no timestamp.
- The store's records have no `created_at` or `details`.
- The colon form allows whitespace between the id and the `:`/`-`.
- `update` is matched without word boundaries, so `reupdate: x` also matches.
- The `update` fallback may return an empty string. `classify` then drops the slot.

## Model

| member | source | states |
|---|---|---|
| `Text.Strip` | sample_model/intent_model.py:52 | the result is `s` with only leading and trailing Python whitespace removed; it is empty exactly when `s` is all whitespace, and otherwise starts and ends with a non-space |
| `Text.GreatestTail` | sample_model/intent_model.py:41-48 | a greedy repetition followed by `(.+)$` starts its capture at the largest position it may give back to from which `(.+)$` matches; None when no such position exists |
| `IntentModel.TableWeights` | sample_model/intent_model.py:15-33 | every rule's weight lies strictly between the 0.1 baseline and the 1.0 of empty input, and no rule is labelled `fallback` |
| `IntentModel.AppIdAt` | sample_model/intent_model.py:11 | at a given start there is at most one match of `\bAPP-\d{3,8}\b`, and this returns its end exactly when one exists |
| `IntentModel.FindAppId` | sample_model/intent_model.py:36 | returns a match that starts at or after `from`, with none starting earlier; None only when no match starts at or after `from` |
| `IntentModel.ExtractAppId` | sample_model/intent_model.py:35-37 | None exactly when the id pattern matches nowhere; otherwise the upper-cased leftmost match, which is `APP-` followed by 3 to 8 ASCII digits |
| `IntentModel.ColonFormShape` | sample_model/intent_model.py:41 | in a colon-form match the digit run, the spaces before the separator, and the maximal space run after it are forced by the text |
| `IntentModel.ColonFormAt` | sample_model/intent_model.py:41 | a colon-form match starts at `i` exactly when this returns a capture start; the returned start is the greatest one, as greedy `\s*` leaves it |
| `IntentModel.FindColonForm` | sample_model/intent_model.py:41 | returns the leftmost colon-form match at or after `from`, with the greatest capture start at that position; None only when there is no match |
| `IntentModel.UpdateFormAt` | sample_model/intent_model.py:46 | an update-form match starts at `i` exactly when this returns a capture start; it is the greatest, as greedy `[\s:,-]+` with backtracking leaves it |
| `IntentModel.FindUpdateForm` | sample_model/intent_model.py:46 | returns the leftmost update-form match at or after `from`, with the greatest capture start there; None only when there is no match |
| `IntentModel.ExtractProgressMessage` | sample_model/intent_model.py:39-49 | if the colon form matches anywhere, the result is its stripped capture, or None when that is empty, and the `update` form is not consulted; otherwise the stripped `update` capture; None when neither matches |
| `IntentModel.FirstMatchesUnique` | sample_model/intent_model.py:41-48 | the match `re.search` reports for each message form is unique, so the message is determined by the text |
| `IntentModel.Classify` | sample_model/intent_model.py:51-73 | empty stripped input gives ("empty", 100, no slots); otherwise the confidence is the maximum of 10 and the weights of the firing rules, the intent is "fallback" exactly when no rule fires and otherwise that of the earliest firing rule with that weight; `app_id` is present iff an id is found, `message` iff the intent is progress_update and the extracted message is non-empty; no other slot keys |
| `AppStore.ApplicationStore.constructor` | sample_model/app_store.py:9-17 | a store without a backing file starts empty and satisfies the store invariant |
| `AppStore.ApplicationStore.UpsertApplication` | sample_model/app_store.py:24-33 | an unknown id gets a record (id, applicant, status, empty log); a known one gets the new applicant and status and keeps its log; the key set gains only `appId`; every other record is unchanged; the status then reads back |
| `AppStore.ApplicationStore.AddProgress` | sample_model/app_store.py:36-43 | an unknown id fails with UnknownApplication and leaves the store unchanged; a known id has exactly `{"message": message}` appended to its log, with the earlier entries, the rest of the record, the key set and every other record unchanged |
| `AppStore.ApplicationStore.GetApplication` | sample_model/app_store.py:45-46 | returns the record filed under the id, or None for an unknown id |
| `AppStore.ApplicationStore.StatusOf` | sample_model/app_store.py:48-50 | returns the status of the record filed under the id, or None for an unknown id |
| `AppStore.UpsertThenAddProgress` | sample_model/app_store.py:24-50 | a caller that upserts an id can read its status back and log progress after the existing entries, while an unknown id is refused and changes nothing |
| `KnowledgeBase.ItemsOf` | sample_model/knowledge_base.py:20 | rows are inserted in order: every row's id is a key, there are no more keys than rows, and the last row is filed under its id, replacing any earlier row with the same id |
| `KnowledgeBase.ItemsOfLastRowWins` | sample_model/knowledge_base.py:20 | the id-keyed items hold exactly the ids that occur in the rows, each mapped to the last row with that id |
| `KnowledgeBase.GetAnswer` | sample_model/knowledge_base.py:22-24 | None for an id without a row, and otherwise that row's answer |
| `KnowledgeBase.MappedIntentsAreClassifierIntents` | sample_model/knowledge_base.py:27-34 | each of the six intents with an FAQ id is an intent of the classifier's rule table |
| `KnowledgeBase.AnswerForIntent` | sample_model/knowledge_base.py:36-40 | None for an intent outside the six mapped ones; otherwise the answer for the FAQ id the intent maps to |
| `KnowledgeBase.AnswerForIntentFromRows` | sample_model/knowledge_base.py:20-40 | against the loaded rows, the answer is that of the last row whose id the intent maps to; it is None when the intent is unmapped or no row has that id |

## Left out

- File persistence. `_load`/`_save` of the store, the `mkdir`, and the reading and JSON parsing of the FAQ file are not modelled. The store starts empty; the FAQ rows are an argument.
- Floating-point confidences and `round(_, 2)`. Weights are integer hundredths, for which rounding is the identity.
- The regex engine for the thirteen intent patterns. Whether a pattern fires is the `search` parameter, so `Classify` holds for every engine. Only the app-id and message regexes are modelled exactly.
- Unicode in the hand-modelled regexes. Python's `\d` also matches non-ASCII decimal digits, `\w`/`\b` treat all Unicode letters as word characters, and IGNORECASE folds full Unicode case. The model uses ASCII digits, ASCII word characters and ASCII case folding. Python whitespace is modelled in full.
- Aliasing. `get_application` returns the live dict, through which a caller could change the store; the model returns a copy of the record.
- Malformed stored data. A falsy or field-less record (`self._data.get(app_id) or {...}`, `if not record`, `record.get("progress", [])`) can only come from a loaded file. The model's records always have all four fields. The same holds for FAQ rows without an `id` (a `KeyError` while loading) and for non-string answers.
- `UpsertApplication`, `AddProgress`: they require the store invariant `Valid()` (every record filed under its own id). The constructor establishes it and every method keeps it; the source has no such check because its records are created the same way.
- The HTTP layer (`app/main.py`, `server.py`), the browser code (`web/script.js`, `static/app.js`) and the command-line driver (`sample_model/cli.py`). These are glue around the three components. This includes the random id generator and the reply composition.
- `create_application`, `update_status` and `list_applications`, which `server.py` calls, are not defined in `sample_model/app_store.py`. They are not part of this model, and neither is their timestamped record schema.
- That lookups never change the knowledge base holds by construction. `GetAnswer` and `AnswerForIntent` are functions of an immutable map.
