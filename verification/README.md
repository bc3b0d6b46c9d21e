# deutsch-bot quiz core in Dafny

A model of the quiz logic of the Telegram bot that drills German/Russian word pairs
(`main.py`). The model has two parts:

- **Answer matching** (`matching.dfy`, module `Matching`). This is `compare`: both strings
  are lower-cased, each is split at every single non-word character as `re.split("\W", s)`
  does, and the two token lists are compared. The central result is a round trip. Joining
  the tokens of `s` with one common separator gives `s` with every non-word character
  masked to that separator (`JoinSplit`), and splitting undoes joining (`SplitJoin`).
  Together these show that `compare` holds exactly when the lower-cased strings agree
  position by position, with all non-word characters read as one symbol.
- **The conversation** (`quiz.dfy`, module `Quiz`). There are three states: `HELLO`,
  `LESSON`, and `End`. `End` is the state outside a conversation, both before `/start` and
  after `/stop`. The per-user session (`context.user_data`) holds an optional dictionary
  and an optional open question. Each handler (`select_dictionary`, `hello`, `lesson`,
  `stop`) is a pure function. It returns the next state, the next session and the replies
  it sent. The helper `_set_question` returns the new session and the prompt it shows. A handler that raises (`KeyError`, or
  `read_csv` on a missing file) returns `Failure` with the exception and the replies it had
  already sent. The transition table wired in `main` is `Dispatch`. Its contract proves
  that every transition preserves the conversation invariant: in `LESSON` there is a
  dictionary and exactly one open question drawn from it, and outside `LESSON` the session
  is empty.
- `scenarios.dfy` (module `Scenarios`) states whole conversations through `Dispatch` on
  concrete messages, as lemmas.

`wrappers.dfy` holds `Option` and `Result`.

Inputs the code gets from outside are parameters:
- the parsed dictionary files (`Files`, a map from path to rows);
- the user's first name;
- the random row that `dictionary.sample(1)` draws, given as an index `i` into the table.

Three behaviours of the code that the model keeps:
- Runs of separators are not collapsed, so `"a  b"` does not match `"a b"`
  (`RunsNotCollapsed`).
- An unknown name raises `KeyError` at main.py:49. Nothing is sent and the conversation
  stays in `HELLO` (`UnknownNameScenario`).
- With no open question, `lesson` raises `KeyError` at main.py:67 (`CheckAnswer`). Within
  one chat, an answer sent after `/stop` is not routed to `lesson` at all
  (`StopThenAnswerScenario`).

## Model

| member | source | states |
|---|---|---|
| Matching.Split | main.py:119-120 | `re.split("\W", s)` returns one token more than `s` has non-word characters (runs are not collapsed), and every token consists of word characters only |
| Matching.JoinSplit | main.py:119-120 | joining the tokens of `s` with one separator gives back `s` with every non-word character replaced by that separator: splitting loses nothing but which separator stood where |
| Matching.SplitJoin | main.py:119-120 | splitting a `Sep`-joined list of word-only tokens returns exactly that list (the other half of the round trip) |
| Matching.SplitMask | main.py:119-120 | replacing each non-word character by the common separator does not change the token list |
| Matching.SplitEqIffMaskEq | main.py:119-121 | two strings split into equal token lists if and only if they are equal after masking their non-word characters |
| Matching.Compare | main.py:111-121 | `compare(s1, s2)` holds if and only if the lower-cased strings agree position by position with every non-word character read as one common separator; matching strings have equal length |
| Matching.LowerStrIdempotent | main.py:118 | lower-casing an already lower-cased string changes nothing |
| Matching.CompareIgnoresCase | main.py:118 | lower-casing either argument before `compare` does not change the verdict |
| Matching.CompareIsEquivalence | main.py:118-121 | `compare` is reflexive, symmetric and transitive |
| Matching.EmptyMatchesOnlyEmpty | main.py:119-121 | the empty answer matches the empty translation and nothing else |
| Matching.SeparatorVariance | main.py:112-116 | two strings that differ only in which non-word character stands at one position match |
| Matching.HyphenMatchesSpace | main.py:114-116 | "lief gelaufen" typed by the user matches "lief-gelaufen" stored in the dictionary |
| Matching.CapitalIgnored | main.py:113 | "Laufen" matches "laufen" |
| Matching.OrderMatters | main.py:119-121 | "gelaufen lief" does not match "lief-gelaufen": token order counts |
| Matching.RunsNotCollapsed | main.py:119-121 | "a  b" (two spaces) does not match "a b" |
| Quiz.SetQuestion | main.py:97-108 | `_set_question` stores as the open question an entry that is in the session's dictionary, keeps the dictionary, and shows that entry's Russian word after the rule line |
| Quiz.SetQuestionCovers | main.py:100 | every entry of the dictionary can be drawn as the next question |
| Quiz.SelectDictionary | main.py:31-42 | `select_dictionary` always returns `HELLO`, leaves the session alone, and offers exactly the names of `DICTIONARIES` on the keyboard |
| Quiz.OpenDictionary | main.py:45-58 | `hello` succeeds exactly when the text names a dictionary whose file exists; an unknown name raises `KeyError` and a missing file raises, each before anything is sent; on success it stores that dictionary, prints it, opens a question drawn from it, and moves to `LESSON` |
| Quiz.CheckAnswer | main.py:61-85 | `lesson` raises `KeyError` before replying when there is no open question; otherwise its first reply is the praise line followed by "ru = de" of the old question if and only if `compare(answer, de)` holds, and the rebuke line if and only if it does not; on success it stays in `LESSON` with the same dictionary and one new open question from it, shown in the second reply |
| Quiz.Stop | main.py:88-94 | `stop` says goodbye, leaves no dictionary and no question, and ends the conversation |
| Quiz.Dispatch | main.py:134-145 | the transition table preserves the conversation invariant; `/stop` ends a conversation from `HELLO` or `LESSON`; outside a conversation only `/start` is handled; other commands are ignored; a name whose dictionary file exists moves `HELLO` to `LESSON`, and any other text leaves it unchanged; an answer in `LESSON` is praised if and only if it matches |
| Quiz.Drill | main.py:140-142 | any run of answers in `LESSON` stays in `LESSON` on the same dictionary, with exactly one open question from it, and sends two replies per answer |
| Scenarios.CorrectAnswerScenario | main.py:45-85 | with a one-entry verbs file, `/start`, "Verben" and "Laufen" ask "бежать", accept the answer, reveal "бежать = laufen", and ask "бежать" again |
| Scenarios.UnknownNameScenario | main.py:48-49 | a name that is not a dictionary leaves the user in `HELLO` with nothing sent or stored |
| Scenarios.StopThenAnswerScenario | main.py:88-94 | `/stop` mid-lesson empties the session, and an answer sent afterwards is ignored |

## Left out

- The Telegram transport, at main.py:124-155. This covers `Updater`, polling, `idle`, the
  API token and keyboard rendering. It is an external framework.
- From `ConversationHandler`, the model keeps only these observable rules: the states,
  entry point, fallback and message filters of lines 134-145; no re-entry by `/start`
  inside a conversation; and a handler that raises leaves the conversation state unchanged.
  The session (`user_data`) would keep every write made before the raise, but none of the
  modelled exceptions is raised after the session was written, so the session is unchanged
  too.
- The model assumes one chat per user. Conversations are keyed by chat and user, but
  `user_data` is keyed by user alone, so one user in two chats shares one session: `/stop`
  in one chat would empty the session of a conversation still in `LESSON` in the other.
  That shared `user_data` is not modelled, and `Invariant` holds per chat only under this
  assumption.
- Message parsing is not modelled. Commands arrive as `Command(name)` and other text as
  `Text(t)`. Non-text messages are not modelled.
- `pd.read_csv` parsing and the `str(dictionary)` rendering at main.py:49-50 are foreign
  library calls. A file is a given list of `(ru, de)` rows, and the printed table is the
  reply `Dump(table)`. Malformed CSV (wrong columns) is not modelled.
- Logging (main.py:15-19, 71) is a side effect only.
- Real randomness in `dictionary.sample(1)` (main.py:100) is replaced by an index argument.
  `SetQuestion` requires `i < |table|`.
- OpenDictionary: requires a valid index into the chosen table, so an empty dictionary file
  is excluded. With an empty table the source would raise `ValueError` in `sample` after it
  had printed the table and stored the dictionary. An empty dictionary file is treated as a
  configuration error.
- Dispatch: has the same index precondition for the table the handler samples.
- Drill: has the same index precondition for every answer of the run.
- CheckAnswer: has the same index precondition for the session's dictionary.
- `str.lower()` is modelled per character for the upper-case letters of ASCII, Latin-1
  (U+00C0-U+00DE) and basic Cyrillic (U+0400-U+042F). Other characters are left unchanged.
  Python's length-changing lower-casings (for example U+0130) are not modelled.
- `\W` is modelled for ASCII, Latin-1 and Cyrillic U+0400-U+045F. Word characters are ASCII
  letters, digits and `_`; Latin-1 letters, superscript digits and fractions; and that
  Cyrillic block. Every other character is treated as a separator, although Python counts
  letters of other scripts as word characters.
- The greeting and farewell interpolate the user's first name, which is a parameter here.
