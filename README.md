# radio-name-bot, modelled in Dafny

radio-name-bot is a one-shot script (`bot.py`). It loads five credentials from the
environment. It reads every radio-station name generated so far from an sqlite table
whose `name` column is UNIQUE, and asks Gemini for a new name. The prompt is a template
file followed by the past names joined with ",". The script logs the new name, inserts
it into the table and posts it with tweepy. Any failure is logged at ERROR and ends
the process with exit status 1.

This project models that script:

- `wrappers.dfy` (`Wrappers`): `Option` and `Result`. An error carries the message of
  the exception the script raises.
- `env.dfy` (`Env`): Python's `str.strip()`, with whitespace being exactly the code
  points `str.isspace()` accepts, and `get_env_variable` over an environment map.
- `prompt.dfy` (`Prompt`): `",".join`, with `str.split(",")` as its reference
  inverse, and `get_prompt`. The template file's contents are an `Option<string>`,
  and `None` means the file does not exist.
- `logging.dfy` (`Logging`): `print_log`'s level check. A log entry is a level and a
  message.
- `store.dfy` (`Store`): the `radio_names` table as a sequence of rows that keeps the
  UNIQUE constraint, `get_all_radio_names`, and the outcome of `insert_radio_name`.
- `bot.dfy` (`Bot`): credential loading, `gen_radio_name` with its error wrapping,
  `post_tweet`, and the run as a specification function `RunSpec`. The class
  `RadioNameBot` holds the table rows, the log, the outbound calls made and the exit
  status. Its methods `Emit`, `InsertRadioName`, `GenerateName`, `MainBlock` and
  `Run` change that state step by step and are proved against the specification
  functions.
- `run_properties.dfy` (`RunProperties`): what a run guarantees. It covers step order,
  what each failure leaves behind, the exit status, and two end-to-end scenarios: a
  new name is stored and posted; a repeated name is refused.

External effects are inputs of a run (`Bot.Externals`): the environment map, the
template file's contents, an sqlite failure (if any) of the SELECT and of the INSERT,
the Gemini reply (text or failure detail) and the tweepy reply. The run makes each
request at most once, so one reply per request covers every behaviour of the remote
service.

## Model

| member | source | states |
|---|---|---|
| `Env.TrimLeftShape` | bot.py:16 | stripping the front keeps a suffix; everything dropped is whitespace; the rest does not start with whitespace |
| `Env.TrimRightShape` | bot.py:16 | stripping the back keeps a prefix; everything dropped is whitespace; the rest does not end with whitespace |
| `Env.Strip` | bot.py:16 | `strip()` never lengthens the value, and a non-empty result neither starts nor ends with whitespace |
| `Env.StripShape` | bot.py:16 | `strip()` yields a contiguous piece of the value with only whitespace around it, and no whitespace at either end |
| `Env.StripEmptyIff` | bot.py:16-17 | the stripped value is empty exactly when the raw value is whitespace only |
| `Env.StripClean` | bot.py:16 | a value with no surrounding whitespace is returned unchanged |
| `Env.StripIdempotent` | bot.py:16 | stripping twice equals stripping once |
| `Env.GetEnvVariable` | bot.py:15-19 | a failure carries the message naming the variable; a success is non-empty |
| `Env.GetEnvVariableSpec` | bot.py:15-19 | fails exactly when the variable is unset or whitespace only (unset reads as ""); a success has no leading or trailing whitespace and is the raw value with only whitespace removed from its two ends |
| `Env.GetEnvVariableClean` | bot.py:16-19 | a set value without surrounding whitespace is returned as it is |
| `Prompt.Join` | bot.py:38 | the joined history starts with the first name |
| `Prompt.JoinLength` | bot.py:38 | the joined history has the total length of the names plus one separator between each two, so nothing is truncated or dropped and there is no trailing delimiter |
| `Prompt.JoinSnoc` | bot.py:38 | one more name in the history appends "," and that name to the joined text |
| `Prompt.JoinSplit` | bot.py:38 | joining the pieces of `split(",")` gives the text back |
| `Prompt.SplitJoin` | bot.py:38 | when no name holds a comma, splitting the joined history gives back the names in their order, with no deduplication or sorting |
| `Prompt.GetPrompt` | bot.py:35-40 | a missing template file gives the "not found" error naming the file; otherwise the prompt is the template followed immediately by the joined history |
| `Prompt.EmptyHistory` | bot.py:38 | with no history the prompt is the template unchanged |
| `Prompt.TwoNames` | bot.py:38 | the prompt for history ["a","b"] and template "T:" is "T:a,b" |
| `Logging.PrintLog` | bot.py:88-93 | a line is produced exactly for INFO, ERROR, DEBUG and WARNING, holding that level and the message; any other level gives the "Invalid log level" error and no line |
| `Store.DistinctOnce` | db_setup.py:11 | under the UNIQUE constraint each name occurs at most once in the table |
| `Store.GetAllRadioNames` | bot.py:55-63 | a failed query gives the wrapped sqlite error; otherwise the result holds exactly the stored names, as many as there are rows |
| `Store.ListedOnce` | bot.py:55-61 | listing the table yields every stored name exactly once |
| `Store.InsertError` | bot.py:66-74 | the insert succeeds exactly when sqlite reaches the table and the name is new; a stored name is refused with the UNIQUE-constraint message; every error has the insert prefix |
| `Store.Inserted` | bot.py:66-74 | the table after an insert extends the old one by at most one row; it grows exactly when sqlite succeeds and the name is new, the new row is that name, and the UNIQUE constraint is kept |
| `Store.InsertKeepsDistinct` | bot.py:66-74 | every insert keeps the UNIQUE constraint, and the table gains exactly the inserted name or nothing |
| `Store.InsertThenList` | bot.py:55-74 | after inserting a new name, listing shows it exactly once, and inserting it again is refused |
| `Bot.FirstMissing` | bot.py:96-104 | the index of the first credential that fails: all before it load and it does not |
| `Bot.LoadCredentials` | bot.py:96-104 | start-up succeeds exactly when each of the five variables loads; every loaded credential is non-empty; a failure carries the message of one of the five variables |
| `Bot.LoadCredentialsSpec` | bot.py:96-108 | start-up succeeds exactly when all five variables load, and then holds their stripped values; otherwise its error names the first failing variable in the fixed order |
| `Bot.SendRequestToGemini` | bot.py:43-52 | the reply text is returned as it is; a failure is wrapped with the Gemini prefix |
| `Bot.GenRadioName` | bot.py:22-32 | a store-read error passes through unwrapped; a missing template or Gemini failure is re-raised with the "Failed to generate radio name: " prefix; success returns the generator's text unchecked |
| `Bot.PostTweet` | bot.py:76-86 | succeeds exactly when the tweepy request does; a failure is wrapped with the post prefix |
| `Bot.GenerationCalls` | bot.py:23-27 | the store read is always the first call; the generation request follows exactly when the read succeeds and the template exists, and carries the prompt get_prompt builds from the listed names |
| `Bot.MainSpec` | bot.py:110-120 | the `__main__` block exits 0 or 1, its last log line is INFO on success and ERROR on failure, its first call is the store read, and the table is unchanged or gains the generated name, which was not stored before |
| `Bot.RunSpec` | bot.py:96-120 | the script exits 0 or 1; it exits 1 exactly when its last log line is ERROR; a credential failure makes no call and leaves the table as it was; the UNIQUE constraint is kept |
| `Bot.RadioNameBot.constructor` | db_setup.py:11 | a process starts with a table that keeps the UNIQUE constraint, an empty log, no calls and status 0 |
| `Bot.RadioNameBot.Emit` | bot.py:88-93 | writes exactly one line for a valid level and nothing for an invalid one |
| `Bot.RadioNameBot.InsertRadioName` | bot.py:66-74 | adds exactly the name when it is new and sqlite succeeds; otherwise fails and leaves the table unchanged |
| `Bot.RadioNameBot.GenerateName` | bot.py:22-32 | returns what GenRadioName specifies and records the read, then the generation request with the built prompt |
| `Bot.RadioNameBot.MainBlock` | bot.py:110-120 | leaves the status, table, log and calls that MainSpec gives for the table it started from |
| `Bot.RadioNameBot.Run` | bot.py:96-120 | leaves the status, table, log and calls that RunSpec gives for the table it started from |
| `RunProperties.CredentialFailureStopsEverything` | bot.py:96-108 | a missing credential gives status 1 with no read, generation, insert or post, and writes the first missing variable's error twice |
| `RunProperties.MainInsertBeforePost` | bot.py:115-116 | in the `__main__` block, a post is the last call and comes straight after the insert of the same, previously absent, name, which is then the one new row |
| `RunProperties.InsertBeforePost` | bot.py:96-116 | over the whole script, a post is the last call, comes straight after an insert of the same name, and that name is then the one new row |
| `RunProperties.MainFailedInsertNeverPosts` | bot.py:115-120 | in the `__main__` block, a failed insert (duplicate or sqlite failure) means no post, an unchanged table, an ERROR line and status 1 |
| `RunProperties.FailedInsertNeverPosts` | bot.py:115-120 | a failed insert (duplicate or sqlite failure) means no post, an unchanged table, an ERROR line and status 1 |
| `RunProperties.MainFailedPostKeepsName` | bot.py:115-120 | in the `__main__` block, a failed post gives status 1, the inserted name stays in the table and the post error is the last line |
| `RunProperties.FailedPostKeepsName` | bot.py:115-120 | a failed post gives status 1, and the inserted name stays in the table |
| `RunProperties.SuccessfulRun` | bot.py:110-117 | status 0 exactly when every step succeeds; the table then gains exactly the generated name, two INFO lines are written, and the calls are read, generate with template+history, insert, post |
| `RunProperties.MainExitStatusAndLog` | bot.py:110-120 | in the `__main__` block, the status is 0 or 1, a failure ends with an ERROR line, a success writes only INFO lines, and every level is one print_log accepts |
| `RunProperties.ExitStatusAndLog` | bot.py:105-120 | the status is 0 or 1; a failed run ends with an ERROR line; a successful one writes only INFO lines; every line has a level print_log accepts |
| `RunProperties.TableAppendOnly` | bot.py:115 | the table keeps the UNIQUE constraint and gains at most one new name, one the run tried to insert |
| `RunProperties.MainEchoDriftScenario` | bot.py:110-117 | the `__main__` block with store ["Sunset FM","Night Wave"], generator "Echo Drift" and a working publisher stores "Echo Drift", writes two INFO lines, posts "Echo Drift" last and exits 0 |
| `RunProperties.EchoDriftScenario` | bot.py:110-117 | store ["Sunset FM","Night Wave"], generator "Echo Drift" and a working publisher: "Echo Drift" is stored and posted as the last call, two INFO lines are written, status 0 |
| `RunProperties.MainDuplicateScenario` | bot.py:115-120 | the `__main__` block with a generated name already stored refuses the insert with the UNIQUE message, posts nothing, writes one ERROR line and exits 1 |
| `RunProperties.DuplicateScenario` | bot.py:115-120 | a generated name already stored: the insert is refused with the UNIQUE message, nothing is posted, one ERROR line is written, status 1 |

## Left out

- sqlite connections, cursors and commits: the table is a sequence of rows. An I/O or query failure of the SELECT or the INSERT is an input of the run, not a modelled cause.
- `db_setup.py` table creation: only its UNIQUE constraint on `name` is modelled, as the invariant `Store.Distinct`.
- The Gemini and tweepy clients: their replies are inputs. The fixed model identifier, the request payload and the client construction are not modelled. The generated text is not validated, and the model adds no check.
- Reading `prompt.txt`: its contents are an input, and only the file-not-found case is modelled as an error. Other `open`/`read` errors (a permission error, a `UnicodeDecodeError`) get past `get_prompt` but end the run through the same generation-failure path (bot.py:31-32, then bot.py:118-120); only their message is not modelled.
- Bot.SendRequestToGemini: the reply text is assumed to be a `str`. The SDK's `response.text` can be `None` (a response with no text parts); the source would then log "Generated radio name: None", insert a NULL row (the UNIQUE constraint admits repeated NULLs), and every later run would fail in `",".join` (bot.py:38) with status 1. The model does not capture that path, so Store.InsertKeepsDistinct and RunProperties.TableAppendOnly hold only for text replies.
- Timestamps and console formatting (`datetime.now()`, the `print` format): a log entry is a level and a message.
- Process `exit` and import-time global binding: the exit status is a field, and the credentials are an explicit `Credentials` value passed to the main block.
- Exceptions other than the ones the script raises itself (for example an interrupt) are not modelled.
- Overlapping runs and concurrent access to the table.

## Behaviour worth noting


- A failed read of the past names is not re-raised as a generation failure. The read at bot.py:23 sits outside the `try`, so its "Failed to fetch radio names from SQLite" message reaches the log as it is (`Bot.GenRadioName`).
- A missing credential is written to the console twice: once by a bare `print` (bot.py:106) and once by `print_log` (bot.py:107) (`RunProperties.CredentialFailureStopsEverything`).
