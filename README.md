# SaaS analytics core in Dafny

This project models two parts of a small SaaS back end and proves properties of them.

**GitHub contribution analytics** (`GitHubAnalytics`, module `GitHubAnalytics`):
- `get_repository_contributors` keeps each contributor's commits inside an optional inclusive date range. It folds them into a report with the kept commits, their count and their line totals, and returns the reports that have at least one kept commit.
- `analyze_contributions` sums those reports into the repository summary.
- `get_user_code_patches` builds a stripped patch text per kept commit. It raises on the first commit-detail request that does not answer 200.
- `analyze_user_contributions` takes, per repository, the first report whose login is the user. It records one `user_contributions` row per repository where the user is found. An exception leaves no row committed.

The loops are methods proved equal to recursive specification functions. The properties are lemmas about those functions.

**Discord event store** (`SaaSBot`, modules `EventStore` and `DiscordBot`):
- Each table of `init_database` is a sequence of rows in rowid order, plus the table's AUTOINCREMENT sequence value. An INSERT gives its row the id after that value.
- `get_server_id`, `get_or_create_channel` and `get_or_create_user` are one get-or-create lookup, keyed by the server name `server-<guild id>`, the Discord channel id or the Discord user id.
- `store_message` and `store_attachment` always append one row.
- `on_message` ignores the bot's own messages. For other messages it resolves server, channel and author, stores the message, then stores each attachment.
- `EventStore` states all this as functions on the tables and proves the properties.
- `DiscordBot.SaaSBot` is the bot as a class. Its fields are the five tables, and each handler is proved to leave exactly the tables the matching function describes.

Supporting modules:
- `Base`: Option and Result.
- `Text`: Python's `str(int)` for non-negative ints, `str.isspace` and `str.strip`.

Commit dates are integers on one timeline. The GitHub API's answers are inputs: contributors with their commits and the commit-detail responses. So are the dates the clock shows when each `user_contributions` row is inserted, one per repository, since the clock is read anew for every row.

## Model

| member | source | states |
|---|---|---|
| GitHubAnalytics.InRangeInclusive | integrations/github_integrations/get.py:107-111 | a commit passes the filter iff (no start or start <= date) and (no end or date <= end): both bounds inclusive, a missing bound does not filter |
| GitHubAnalytics.KeptCommitsMembership | integrations/github_integrations/get.py:100-123 | a commit is in a contributor's `commits` list iff it is one of its input commits and lies in the range |
| GitHubAnalytics.KeptCommitsAppend | integrations/github_integrations/get.py:100-120 | the filter distributes over concatenation, so kept commits keep their input order and are unchanged entries |
| GitHubAnalytics.BuildContributorData | integrations/github_integrations/get.py:89-123 | the inner loop, with its two `continue` guards, builds exactly the report of the kept commits: the list, the count and both line sums |
| GitHubAnalytics.ReportsAreConsistent | integrations/github_integrations/get.py:114-126 | every returned report has total_commits > 0, total_commits equal to the length of its commits list, and line totals equal to the sums over exactly those commits |
| GitHubAnalytics.ContributorsInRange | integrations/github_integrations/get.py:87-128 | at most one report per input contributor |
| GitHubAnalytics.ContributorsInRangeMembership | integrations/github_integrations/get.py:87-128 | a report is returned iff it is the report of an input contributor with at least one kept commit |
| GitHubAnalytics.ContributorsInRangeAppend | integrations/github_integrations/get.py:87-128 | reports come out in contributor order: the result distributes over concatenation of the contributor list |
| GitHubAnalytics.GetRepositoryContributors | integrations/github_integrations/get.py:79-128 | the outer loop returns exactly the specified list of reports |
| GitHubAnalytics.SummaryCountsKeptCommits | integrations/github_integrations/get.py:181-186 | the summary counts the contributors with a kept commit, and its commit and line totals are the count and line sums of all kept commits of the repository |
| GitHubAnalytics.ReportCountIsActiveCount | integrations/github_integrations/get.py:182 | total_contributors is the number of contributors with a commit in range |
| GitHubAnalytics.CommitTotalIsKeptCount | integrations/github_integrations/get.py:183 | total_commits is the number of kept commits over all contributors |
| GitHubAnalytics.LinesAddedTotalIsKeptSum | integrations/github_integrations/get.py:184 | total_lines_added is the sum of additions over all kept commits |
| GitHubAnalytics.LinesDeletedTotalIsKeptSum | integrations/github_integrations/get.py:185 | total_lines_deleted is the sum of deletions over all kept commits |
| GitHubAnalytics.RawPatchStartsWithFirstFile | integrations/github_integrations/get.py:258-261 | the unstripped patch text opens with the first file's section |
| GitHubAnalytics.PatchTextKeepsFront | integrations/github_integrations/get.py:258-267 | for a non-empty file list the stripped text still starts with "File: " and the first filename |
| GitHubAnalytics.FileSectionStart | integrations/github_integrations/get.py:259-260 | a file's section opens with its "File: " header line, followed by the status line |
| GitHubAnalytics.PatchTextTrimsOnlyTrailingSpace | integrations/github_integrations/get.py:258-267 | for a non-empty file list the stripped text is a prefix of the raw text and everything dropped is whitespace |
| GitHubAnalytics.PatchTextDropsFinalBlankLine | integrations/github_integrations/get.py:258-267 | when the last file's patch ends in a visible character (or is missing, giving "No patch available"), the text is the sections with only the final "\n\n" removed |
| GitHubAnalytics.BuildPatch | integrations/github_integrations/get.py:256-267 | the loop appending "File: …\nStatus: …\nPatch:\n…\n\n" per file and then stripping yields the specified patch text |
| GitHubAnalytics.KeptFetchedMatchesKeptCommits | integrations/github_integrations/get.py:224-241 | the commits whose patches are fetched are exactly the commits the contributor filter keeps, in order |
| GitHubAnalytics.CodePatchesFailIff | integrations/github_integrations/get.py:236-252 | the call raises iff some commit in range gets a detail response other than 200; commits outside the range are never fetched |
| GitHubAnalytics.CodePatchesMatchKept | integrations/github_integrations/get.py:224-269 | on success there is one entry per kept commit, in order, with that commit's sha, message, date and its own patch text |
| GitHubAnalytics.CodePatchesErrPersists | integrations/github_integrations/get.py:251-252 | once a commit's request fails, later commits change nothing: the exception discards the patches gathered so far |
| GitHubAnalytics.GetUserCodePatches | integrations/github_integrations/get.py:217-269 | the loop returns the specified patches, or the exception "Failed to fetch commit details: <message or Unknown error>" |
| GitHubAnalytics.FirstWithLoginIsFirstMatch | integrations/github_integrations/get.py:343 | `next(...)` gives None iff no report has the login, and otherwise the first report in list order whose login is the username |
| GitHubAnalytics.RepoStepFailIff | integrations/github_integrations/get.py:343-348 | a repository raises iff the user is reported there and fetching the user's patches raises; patches are fetched only for such repositories |
| GitHubAnalytics.ContributionRowsFailIff | integrations/github_integrations/get.py:339-352 | the walk over the repositories raises iff some repository raises |
| GitHubAnalytics.ContributionRowsAreMatches | integrations/github_integrations/get.py:339-352 | on success the recorded rows are the matched rows, one per repository where the user is reported, in repository order |
| GitHubAnalytics.MatchedRowsMembership | integrations/github_integrations/get.py:343-352 | a row is recorded iff it is the row (repo full name, username, the first matching report's totals, the date the clock shows at that repository's insert) of a repository where the user is reported |
| GitHubAnalytics.ContributionRowsErrPersists | integrations/github_integrations/get.py:346-365 | once a repository raises, the rest of the walk is skipped and the exception is the result |
| GitHubAnalytics.AnalyzeUserContributions | integrations/github_integrations/get.py:328-365 | the method yields the specified rows, or "Failed to get repositories: <message or Unknown error>" when the listing fails, or the first exception of a repository |
| Text.DecimalString | integrations/discord/save.py:166 | `str(n)` is a non-empty string of digits with no leading zero; it is one character iff n < 10 |
| Text.DecimalStringInjective | integrations/discord/save.py:166-181 | different ids have different `str` forms, so lookups keyed by `str(id)` are keyed by the id |
| Text.StripSpec | integrations/github_integrations/get.py:267 | `strip` keeps a contiguous part of the text that neither starts nor ends with whitespace, drops only whitespace, and is empty iff the text is all whitespace |
| EventStore.Insert | integrations/discord/save.py:151-201 | an INSERT appends one row with the id after the sequence value; on a well-formed table that id exceeds every earlier id and the table stays well-formed |
| EventStore.FindIndex | integrations/discord/save.py:153-154 | a lookup that finds something returns the position of a row that holds the key |
| EventStore.FindIndexNone | integrations/discord/save.py:153-155 | the `SELECT id … WHERE column = ?` lookup finds nothing iff no row holds the key |
| EventStore.FindIndexFirstMatch | integrations/discord/save.py:153-154 | `fetchone()` returns the first row, in rowid order, that holds the key |
| EventStore.FindIndexAppend | integrations/discord/save.py:153-163 | appending a row keeps an earlier match and can only add a match at the end |
| EventStore.GetOrCreate | integrations/discord/save.py:151-193 | get-or-create only appends, at most one row; the returned id names a row that holds the key; well-formedness is kept |
| EventStore.GetOrCreateExisting | integrations/discord/save.py:153-193 | for a stored key, the first row's id is returned and the table is unchanged |
| EventStore.GetOrCreateMissing | integrations/discord/save.py:153-193 | for a missing key, exactly one row is inserted and its new id is returned |
| EventStore.GetOrCreateIdempotent | integrations/discord/save.py:153-193 | a second request for the same key returns the same id and changes nothing, whatever its other columns |
| EventStore.GetOrCreateKeepsKeysUnique | integrations/discord/save.py:153-193 | get-or-create never stores a second row with the same key |
| EventStore.GetOrCreateDistinct | integrations/discord/save.py:153-193 | two requests with different keys, one after the other, get different ids |
| EventStore.ServerNameForInjective | integrations/discord/save.py:153-157 | the server name "server-<guild id>" is different for different guilds, so one server row stands for one guild |
| EventStore.ResolveServer | integrations/discord/save.py:151-163 | `get_server_id` changes only `servers`, and returns the id of a server named after the guild |
| EventStore.ResolveChannel | integrations/discord/save.py:165-178 | `get_or_create_channel` changes only `channels`, and returns the id of a channel row holding the Discord channel id |
| EventStore.ResolveUser | integrations/discord/save.py:180-193 | `get_or_create_user` changes only `users`, and returns the id of a user row holding the Discord user id |
| EventStore.AppendMessage | integrations/discord/save.py:195-201 | `store_message` changes only `messages`, keeps the schema guarantees, and returns an id above every earlier message id |
| EventStore.AppendAttachment | integrations/discord/save.py:137-149 | `store_attachment` changes only `attachments`, keeps the schema guarantees, and assigns an id above every earlier attachment id |
| EventStore.AttachmentsInsertedGrows | integrations/discord/save.py:127-129 | storing a message's attachments appends one row per attachment and moves the sequence value by as many; earlier rows stay |
| EventStore.AttachmentsInsertedRows | integrations/discord/save.py:127-149 | the k-th new attachment row is the k-th attachment's record, referencing the message, with id sequence value + k + 1 |
| EventStore.AttachmentsInsertedWellFormed | integrations/discord/save.py:137-149 | storing attachments keeps the AUTOINCREMENT guarantees |
| EventStore.ResolveServerIdempotent | integrations/discord/save.py:153-163 | two calls for the same guild create at most one server row and return the same id |
| EventStore.ResolveChannelIdempotent | integrations/discord/save.py:166-177 | a second call for the same channel returns the same id and does not update the stored server or name |
| EventStore.ResolveChannelIgnoresServer | integrations/discord/save.py:166-177 | an existing channel is found by its Discord id alone: any server id and name give the same id and no change |
| EventStore.ResolveUserIdempotent | integrations/discord/save.py:180-193 | a second call for the same user returns the same id; the stored name is not updated |
| EventStore.ResolveUserCases | integrations/discord/save.py:180-193 | a stored user leaves the tables unchanged; an unknown user gets exactly one new row with an id above every earlier one |
| EventStore.ResolveUserDistinct | integrations/discord/save.py:180-193 | different Discord users get different user row ids |
| EventStore.BotMessageIgnored | integrations/discord/save.py:111-112 | a message from the bot itself leaves every table unchanged |
| EventStore.HandleMessageAppendOnly | integrations/discord/save.py:110-129 | handling a message never modifies or deletes a row: every table's old rows are a prefix of its new rows |
| EventStore.HandleMessageStoresMessage | integrations/discord/save.py:115-125 | another author's guild message adds exactly one message row, with the next id and the content, referencing the channel and the user found by their Discord ids |
| EventStore.HandleMessageStoresAttachments | integrations/discord/save.py:125-129 | it adds one attachment row per attachment, in order and with consecutive ids, each referencing the new message row |
| EventStore.HandleMessageKeepsSchema | integrations/discord/save.py:51-129 | handling a message keeps the AUTOINCREMENT guarantees of every table and the UNIQUE Discord user id |
| EventStore.HandleMessageKeepsDeduplicated | integrations/discord/save.py:153-178 | handling a message never adds a second server for a guild or a second row for a Discord channel |
| EventStore.HandleMessageKeepsReferential | integrations/discord/save.py:115-129 | every server, channel, user and message id stored by the handler names an existing row |
| EventStore.ReferentialServers | integrations/discord/save.py:151-163 | adding servers keeps every stored reference valid |
| EventStore.ReferentialChannels | integrations/discord/save.py:165-178 | a channel created for an existing server keeps every stored reference valid |
| EventStore.ReferentialUsers | integrations/discord/save.py:180-193 | adding users keeps every stored reference valid |
| EventStore.ReferentialMessage | integrations/discord/save.py:195-201 | a message stored for an existing channel and user keeps references valid, and its id then exists |
| EventStore.ReferentialAttachments | integrations/discord/save.py:127-149 | attachments stored for an existing message keep references valid |
| EventStore.FirstMessage | integrations/discord/save.py:51-129 | on a fresh database the first message creates one server, channel, user and message, each with id 1 and linked together; its attachments get ids 1, 2, … in order |
| DiscordBot.SaaSBot.constructor | integrations/discord/save.py:38-49 | the bot starts on the stored tables that `init_database` finds or creates |
| DiscordBot.SaaSBot.GetServerId | integrations/discord/save.py:151-163 | the method leaves the tables, and returns the id, that `ResolveServer` specifies; the schema guarantees are kept |
| DiscordBot.SaaSBot.GetOrCreateChannel | integrations/discord/save.py:165-178 | the method leaves the tables, and returns the id, that `ResolveChannel` specifies; the schema guarantees are kept |
| DiscordBot.SaaSBot.GetOrCreateUser | integrations/discord/save.py:180-193 | the method leaves the tables, and returns the id, that `ResolveUser` specifies; the users table stays free of duplicate Discord ids |
| DiscordBot.SaaSBot.StoreMessage | integrations/discord/save.py:195-201 | the method leaves the tables, and returns the id, that `AppendMessage` specifies |
| DiscordBot.SaaSBot.StoreAttachment | integrations/discord/save.py:137-149 | the method leaves the tables that `AppendAttachment` specifies |
| DiscordBot.SaaSBot.StoreAttachments | integrations/discord/save.py:127-129 | the attachment loop leaves the tables that `AppendAttachments` specifies |
| DiscordBot.SaaSBot.OnMessage | integrations/discord/save.py:110-129 | the handler leaves the tables that `HandleMessage` specifies, so every `EventStore` lemma about `HandleMessage` holds of it |

## Left out

- GitHub access is not modelled: PyGithub, `requests`, and the app-token exchange with RS256 JWT signing in `_get_github_app_token`. Contributors, their commits and the commit-detail responses (status, `message`, `files`) are inputs. So the failures of that access are not modelled either: the "Failed to obtain access token" exception of `_get_github_app_token` (get.py:67), reached once per in-range commit and once per user analysis, and the exceptions of `requests` and PyGithub. The "raises iff" statements of `GitHubAnalytics.CodePatchesFailIff`, `GitHubAnalytics.RepoStepFailIff` and `GitHubAnalytics.ContributionRowsFailIff` are about the modelled responses only.
- The repository-listing call of `analyze_user_contributions` is reduced to its status, its `message` and its `repositories` list.
- The language-model analyses are not modelled: `analyze_commit_messages`, `analyze_large_code_patches`, the `analysis` entry of `analyze_contributions`, and the analysis calls inside `analyze_user_contributions`. They are LLM calls. An exception raised by one of them is not modelled either.
- Time zones: `replace(tzinfo=timezone.utc)` only relabels a date. Dates are integers on one timeline, and the date each row's insert reads from the clock is an input.
- A `files` entry without `filename` or `status` is not modelled. It would raise a KeyError. A `files` key that is absent counts as an empty list.
- Integer widths are not modelled. Python ints and SQLite INTEGER ids are unbounded here, so the AUTOINCREMENT ceiling of 2^63-1 (SQLITE_FULL) is not modelled.
- Storage errors are not modelled: SQLite failures, the `commit()` calls, the `aiosqlite` and async plumbing, and partial writes after a failed statement.
- The `created_at` and `timestamp` columns default to the clock, so the model leaves them out.
- The attachment `duration` FLOAT is stored as a `real`. It is never computed on.
- `on_message` for a direct message: `message.guild` is None, so reading its id raises before anything is written. The model treats it as a handler that changes nothing. The exception and its logging are not modelled.
- The bot's identity is a Discord user id. `message.author == self.user` is modelled as an equality of ids.
- The Discord client is not modelled: the gateway, `on_ready`, `close`, the logging set-up, the two `print` calls and the module-level start-up.
- `app.py` is not modelled. It is FastAPI routing around an API-key equality test.
- `integrations/discord/analysis/run.py` is not modelled. It is an SQL query and an LLM call.
- `integrations/jira/utils.py` is not modelled. It is a fixed dict and an HTTP POST.
- `integrations/github_integrations/test.py` and `integrations/discord/connect.py` are not part of this model.
- The database as a whole is not modelled. `DiscordBot.SaaSBot` holds the tables as values, so the two handles `db` and `cursor` and any second writer to the file are not modelled.
- `EventStore.Deduplicated` and `EventStore.Referential` are not enforced by the schema: there is no UNIQUE on server names or channel ids, and foreign keys are off by default. They are proved to be preserved by a handler that runs alone, not to hold of any database file.
- EventStore.HandleMessageKeepsDeduplicated, EventStore.HandleMessageKeepsReferential, EventStore.HandleMessageStoresAttachments, DiscordBot.SaaSBot.OnMessage: handlers are modelled one at a time, each running to completion before the next starts. discord.py runs every `on_message` as its own asyncio task, so two handlers can interleave at each `await` on the one shared cursor. That interleaving is not modelled: two SELECTs before either INSERT storing a second server or channel row, the UNIQUE failure of a second user INSERT after the server and channel rows are written, and `lastrowid` or `fetchone()` reading the other task's statement so that a row points at the wrong row.
