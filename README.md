# Orphaned call-queue agent repair, modelled in Dafny

This project models the repair half of the nsanity-checker tool (`cleanup.py`).
The repair takes the orphan records the scanner found. Each record names an
agent (`device_aor`) attached to a call queue (`huntgroup_name`) in a domain
(`huntgroup_domain`) that the provisioning system no longer has. The repair:

1. reduces the records to one per valid (queue, domain) pair (`unique_by_keys`);
2. for each pair, counts the agents to detach and asks the operator to confirm
   (`ask_yes_no`);
3. for each accepted pair, builds whatever domain and user are missing, builds
   the queue, detaches every orphaned agent, deletes the queue, and deletes
   exactly the domain and user it built.

The modules are:

- `text.dfy` (`Text`): ASCII `strip()`, `lower()`, and the identifier pattern
  `^[A-Za-z0-9_.-]+$` as Python's `re.match` applies it.
- `records.dfy` (`Records`): records as maps from column name to value.
  `UniqueByKeys` is the imperative loop, proved equal to the prefix-wise
  specification `Deduplicated`. The lemmas prove that the result is a
  subsequence of the input, contains only valid records, holds exactly one
  record per distinct valid key tuple, and keeps the first occurrence of each.
- `confirm.dfy` (`Confirm`): `AskYesNo` reads a sequence of answer lines in
  place of `input()`. It returns `Decided(verdict, used)`, or `EndOfInput` when
  the lines run out; the latter is where Python's `input()` would raise
  EOFError.
- `remote.dfy` (`Remote`): the provisioning API as an abstract state of
  domains, users, queues and queue agents. `RemoteSystem` is a class that keeps
  that state plus a log of the requests sent to it, one method per HTTP helper.
  Its invariant is that the state is the initial state with the log applied.
- `cleanup.dfy` (`Cleanup`): the workflow as methods over a `RemoteSystem`,
  specified by the request sequences `GroupCallsAt` (one group) and `Session`
  (a whole run). The lemmas cover:
  - the order of requests;
  - the symmetry of build and teardown;
  - that a declined group issues nothing;
  - that a whole run leaves domains and users as they were.

Points where the code, not its description, decides the behaviour:

- Only the values under the grouping keys are checked, not every value of the
  record. Values that are not strings, such as `None` for a missing key, are
  not checked at all.
- The pattern rejects the empty string. Because Python's `$` also matches
  before one final newline, the pattern accepts a name followed by a single
  `"\n"` (`Text.IdentifierPatternCorners`).
- When the operator's input runs out, the run stops. The requests already
  issued stay issued.

## Model

| member | source | states |
|---|---|---|
| Text.MatchesIdentifierPattern | cleanup.py:41 | whether `re.match` of `^[A-Za-z0-9_.-]+$` succeeds; its meaning is `MatchesIdentifierPatternIff` |
| Text.Strip | cleanup.py:22 | `str.strip()` on ASCII whitespace; its meaning is `StripLeftIsSuffix`, `StripRightIsPrefix` and `StripPadding` |
| Text.Lower | cleanup.py:22 | `str.lower()` on ASCII letters, keeping the length; `LowerAt` gives it character by character |
| Text.MatchesIdentifierPatternIff | cleanup.py:41 | the pattern accepts exactly a non-empty run of `[A-Za-z0-9_.-]`, optionally followed by one newline |
| Text.IdentifierPatternCorners | cleanup.py:41 | `""` and `"\n"` are refused, `name + "\n"` is accepted, `name + "\n\n"` is refused |
| Text.StripLeftIsSuffix | cleanup.py:22 | `lstrip()` keeps a suffix, removes only whitespace, and leaves no whitespace in front |
| Text.StripRightIsPrefix | cleanup.py:22 | `rstrip()` keeps a prefix, removes only whitespace, and leaves no whitespace at the end |
| Text.StripLeftOfSpaces | cleanup.py:22 | `lstrip()` of an all-whitespace string is empty |
| Text.StripLeftPadding | cleanup.py:22 | leading whitespace does not change what `lstrip()` keeps |
| Text.StripRightPadding | cleanup.py:22 | trailing whitespace does not change what `rstrip()` keeps |
| Text.StripLeftAppend | cleanup.py:22 | whitespace appended after a non-blank string survives `lstrip()` |
| Text.StripPadding | cleanup.py:22 | `strip()` of a string padded with whitespace on both sides is `strip()` of the string |
| Text.StripTrimmed | cleanup.py:22 | a string with no whitespace at either end is its own `strip()` |
| Text.LowerAt | cleanup.py:22 | `lower()` maps each character on its own |
| Text.LowerDropLast | cleanup.py:22 | `lower()` commutes with dropping the last character |
| Text.LowerCharKeepsSpace | cleanup.py:22 | lower-casing never creates or removes whitespace |
| Text.StripLeftLower | cleanup.py:22 | `lstrip()` and `lower()` commute |
| Text.StripRightLower | cleanup.py:22 | `rstrip()` and `lower()` commute |
| Text.StripLowerCommute | cleanup.py:22 | `strip().lower()` equals `lower().strip()` |
| Records.Get | cleanup.py:48 | `d.get(k)`: the value under the key, or `None` when the key is missing; used for the lookups at cleanup.py:48, 55 and 207-208 |
| Records.ValueAllowed | cleanup.py:49 | a value is refused only when it is a string that fails the pattern; `None` and numbers pass |
| Records.KeyTuple | cleanup.py:55 | the tuple of (key, `d.get(key)`) pairs in key order; its meaning is `KeyTupleEqualIff`, `ValidityFollowsKeyTuple` and `Cleanup.KeyTupleIsQueue` |
| Records.KeyTupleEqualIff | cleanup.py:55 | two records have the same key tuple exactly when `d.get(k)` agrees on every key |
| Records.IsValid | cleanup.py:46-53 | a record passes the filter when every key's value is a non-string or matches the pattern; `CheckKeyValues` is the loop proved equal to it |
| Records.Deduplicated | cleanup.py:35-59 | the specification of `unique_by_keys`, defined prefix by prefix; `UniqueByKeys` is proved equal to it, and its meaning is `DeduplicatedKeys`, `DeduplicatedDistinct`, `KeptPositions`, `KeptPositionsAreFirstOccurrences`, `FirstOccurrencesAreKept`, `DeduplicatedCount` and `DeduplicatedIdempotent` |
| Records.ValidKeys | cleanup.py:45-58 | holds a key tuple exactly when some valid record of the input has it |
| Records.CheckKeyValues | cleanup.py:46-53 | the inner loop's flag is true exactly when every key's value is a non-string or matches the pattern |
| Records.UniqueByKeys | cleanup.py:35-59 | the loop with its `seen` set returns exactly the records `Deduplicated` keeps |
| Records.ValidityFollowsKeyTuple | cleanup.py:48-55 | two records with the same key tuple are both valid or both invalid |
| Records.DeduplicatedKeys | cleanup.py:45-58 | every kept record is valid, and the kept records' key tuples are exactly the key tuples of the valid input records |
| Records.DeduplicatedDistinct | cleanup.py:55-58 | no two kept records share a key tuple |
| Records.KeptPositions | cleanup.py:35-59 | the kept records come from strictly increasing input positions: a subsequence in input order |
| Records.KeptPositionsAreFirstOccurrences | cleanup.py:39 | each kept record is the first valid record with its key tuple |
| Records.FirstOccurrencesAreKept | cleanup.py:39 | the first valid record of every key tuple is kept |
| Records.DeduplicatedCount | cleanup.py:55-58 | the number of kept records equals the number of distinct valid key tuples |
| Records.DeduplicatedAppend | cleanup.py:45-58 | unfolding helper: one step of the definition of `Deduplicated`, for one more input record |
| Records.DeduplicatedIdempotent | cleanup.py:35-59 | deduplicating the output again returns it unchanged |
| Confirm.Normalize | cleanup.py:22 | `answer.strip().lower()`; its meaning is `StripSplit`, `StripLowerCommute` and `ClassifyIgnoresPadding` |
| Confirm.Interpret | cleanup.py:24-32 | how a trimmed, lower-cased answer is read: empty, `n` or `no` declines, `y` or `yes` accepts, anything else is unrecognised; its meaning on raw lines is `ClassifyYesIff` and `ClassifyNoIff` |
| Confirm.Classify | cleanup.py:22-32 | how one raw answer line is read: `Interpret` after `strip().lower()`; characterised by `ClassifyYesIff` and `ClassifyNoIff` |
| Confirm.StripSplit | cleanup.py:22 | every line is its `strip()` with only whitespace before and after it |
| Confirm.ClassifyYesIff | cleanup.py:22-28 | a line accepts exactly when it is `y` or `yes`, in any letter case, with any whitespace around it |
| Confirm.ClassifyNoIff | cleanup.py:22-30 | a line declines exactly when it is empty, `n` or `no`, in any letter case, with any whitespace around it |
| Confirm.Classified | cleanup.py:20-22 | one reading per answer line |
| Confirm.ClassifiedAt | cleanup.py:20-22 | the reading of line `i` is `Classify` of that line |
| Confirm.ClassifiedSuffix | cleanup.py:20-22 | reading the lines after the first `k` gives the readings of all lines without the first `k` |
| Confirm.Decide | cleanup.py:20-32 | a decision uses at least one line and no more lines than there are |
| Confirm.AskYesNo | cleanup.py:14-32 | the loop returns the decision of the first recognised line and the number of lines read, or `EndOfInput` when no line is recognised |
| Confirm.DecideCharacterized | cleanup.py:20-32 | every line before the deciding one is unrecognised, and the deciding line gives the verdict; input runs out exactly when no line is recognised |
| Confirm.DecideFromFirstAnswer | cleanup.py:20-32 | the first recognised line, at position `k`, decides after `k + 1` lines |
| Confirm.DecideIgnoresLaterAnswers | cleanup.py:20-32 | lines after the deciding one do not change the decision |
| Confirm.BlankAnswerDeclines | cleanup.py:24-26 | an empty or all-whitespace answer declines |
| Confirm.ClassifyIgnoresPadding | cleanup.py:22 | whitespace around an answer does not change its reading |
| Confirm.ClassifyIgnoresCase | cleanup.py:22 | answers that differ only in letter case are read alike |
| Confirm.CapitalYesAccepts | cleanup.py:27-28 | `"YES"` with any whitespace around it accepts |
| Confirm.CapitalNoDeclines | cleanup.py:29-30 | `"No"` with any whitespace around it declines |
| Confirm.OtherWordReprompts | cleanup.py:31-32 | any other word, such as `"yep"`, is not an answer, and the question is asked again |
| Remote.Apply | cleanup.py:85-194 | the effect of each create or delete request on the remote state: it adds or removes exactly its own domain, user, queue or agent entry |
| Remote.RunAppend | cleanup.py:197-255 | applying two request sequences one after the other equals applying their concatenation |
| Remote.RemoteSystem.CheckIfDomainExists | cleanup.py:62-70 | true exactly when the remote system has the domain; nothing is logged |
| Remote.RemoteSystem.CheckIfUserExists | cleanup.py:73-82 | true exactly when the remote system has the user in the domain; nothing is logged |
| Remote.RemoteSystem.BuildDomain | cleanup.py:85-106 | logs one domain creation and adds the domain |
| Remote.RemoteSystem.DeleteDomain | cleanup.py:109-118 | logs one domain deletion and removes the domain |
| Remote.RemoteSystem.BuildUser | cleanup.py:121-139 | logs one user creation and adds the user |
| Remote.RemoteSystem.DeleteUser | cleanup.py:142-151 | logs one user deletion and removes the user |
| Remote.RemoteSystem.BuildCallqueue | cleanup.py:154-170 | logs one queue creation and adds the queue |
| Remote.RemoteSystem.DeleteCallqueue | cleanup.py:173-182 | logs one queue deletion and removes the queue |
| Remote.RemoteSystem.DeleteQueueAgents | cleanup.py:185-194 | logs one agent detachment and removes that agent from the queue |
| Cleanup.AgentIds | cleanup.py:209-214 | `orphaned_agent_ids`: the agent of every record of the queue, in input order; its meaning is `AgentIdsMembers` and `AgentIdsAppend` |
| Cleanup.InQueue | cleanup.py:212-213 | a record belongs to a queue when its name and domain both equal the queue's; `KeyTupleIsQueue` ties it to the grouping key |
| Cleanup.Scaffold | cleanup.py:225-239 | the build phase: the domain if it was missing, the user if it was missing, then the queue; its effect is `RunScaffold` |
| Cleanup.Detach | cleanup.py:240-242 | the detach phase: one agent deletion per id, in order (`DetachOnlyDeletesAgents`, `RunDetach`) |
| Cleanup.Teardown | cleanup.py:244-255 | the teardown phase: the queue, then the user and domain if the domain was built, or the user alone if only the user was built (`TeardownMirrorsScaffold`, `RunTeardown`) |
| Cleanup.GroupCalls | cleanup.py:225-255 | one accepted group's requests for given existence flags: build, detach, then tear down |
| Cleanup.GroupCallsAt | cleanup.py:225-255 | the requests of one accepted group against a given remote state: build what is missing, create the queue, detach the agents, tear down; its properties are `TeardownMirrorsScaffold`, `GroupBuildsAndDeletesAlike` and `GroupRestoresScaffolding` |
| Cleanup.Session | cleanup.py:206-255 | the requests of a whole run: each group in turn, decided by the next answer lines, ending when the answers run out; its properties are `SessionRestoresScaffolding`, `NoRequestsWithoutYes` and `DeclinedGroupIssuesNothing` |
| Cleanup.GroupRequests | cleanup.py:219-223 | a declined group issues nothing, an accepted one issues `GroupCallsAt` for its queue and its agent ids (`DeclinedGroupIssuesNothing`) |
| Cleanup.AllGroupsAnswered | cleanup.py:215-217 | whether the answer lines last until every group is decided; `ConfirmAndRepair` returns it as `completed` |
| Cleanup.GroupsAreOrphans | cleanup.py:202-204 | the groups are input records, so they carry the three fields too |
| Cleanup.BuildScaffolding | cleanup.py:225-239 | the domain is looked up and built if missing; the user is taken as missing when the domain was, and looked up otherwise; a missing user is built; then the queue is built |
| Cleanup.DetachAgents | cleanup.py:240-242 | one agent detachment per agent id, in order |
| Cleanup.TearDownScaffolding | cleanup.py:244-255 | the queue is deleted, then the user and domain if the domain was built, or the user alone if only the user was built |
| Cleanup.RepairGroup | cleanup.py:225-255 | an accepted group issues exactly `GroupCallsAt` of the state before it, and the state becomes that state with those requests applied |
| Cleanup.HandleGroup | cleanup.py:206-255 | one loop iteration: the answer is the decision of the answer lines; on yes the group's requests are issued, on no or end of input nothing is |
| Cleanup.ConfirmAndRepair | cleanup.py:206-255 | the loop issues exactly `Session` over the groups and the answers; `completed` is false exactly when the answers run out before every group is decided |
| Cleanup.NextGroup | cleanup.py:206-255 | one pass of the loop: the requests issued so far plus the session over the remaining groups and answer lines equal the requests issued before plus the session over all the groups; input that runs out issues nothing and leaves the run incomplete |
| Cleanup.CleanupCallqueueAgents | cleanup.py:197-255 | the groups are `Deduplicated` over (name, domain); the requests issued are `Session`, and the remote state is the old state with them applied |
| Cleanup.SessionStep | cleanup.py:206-223 | unfolding helper: one step of the definition of `Session` and of `AllGroupsAnswered` for a non-empty list of groups |
| Cleanup.KeyTupleIsQueue | cleanup.py:209-214 | two records have the same (name, domain) key tuple exactly when they name the same queue |
| Cleanup.AgentIdsMembers | cleanup.py:209-214 | an agent id is selected for a queue exactly when some input record of that queue carries it |
| Cleanup.AgentIdsAppend | cleanup.py:209-214 | selection keeps input order: the ids of a concatenation are the ids of each part in turn |
| Cleanup.ValidOrphanHasGroup | cleanup.py:202-214 | every valid record belongs to some group, and its agent is among that group's agent ids |
| Cleanup.GroupsAreDistinctQueues | cleanup.py:202-206 | no two groups name the same queue, so no record belongs to two groups |
| Cleanup.InvalidOrphanHasNoGroup | cleanup.py:202-214 | a record whose name or domain fails the pattern belongs to no group |
| Cleanup.GroupHasAgents | cleanup.py:209-214 | every group has at least one agent to detach |
| Cleanup.TeardownMirrorsScaffold | cleanup.py:225-255 | the teardown is the build undone in reverse order, given that the user counts as missing whenever the domain was |
| Cleanup.DetachOnlyDeletesAgents | cleanup.py:240-242 | the detach phase is exactly one agent deletion per id, in order |
| Cleanup.GroupBuildsAndDeletesAlike | cleanup.py:225-255 | on a consistent state, the domain is created iff it is deleted iff it was missing, and likewise for the user |
| Cleanup.RunDetach | cleanup.py:240-242 | the detach phase removes exactly the group's agent entries |
| Cleanup.RunScaffold | cleanup.py:225-239 | the build phase adds the domain, the user and the queue |
| Cleanup.RunTeardown | cleanup.py:244-255 | the teardown removes the queue, and removes the domain and user exactly when they were built |
| Cleanup.GroupRestoresScaffolding | cleanup.py:225-255 | on a consistent state, an accepted group leaves domains and users unchanged, removes its queue and detaches its agents |
| Cleanup.SessionRestoresScaffolding | cleanup.py:206-255 | over a whole run from a consistent state, domains and users end as they began, and only the groups' queues and agents can disappear |
| Cleanup.NoRequestsWithoutYes | cleanup.py:219-221 | an operator who never answers yes causes no request at all |
| Cleanup.DeclinedGroupIssuesNothing | cleanup.py:219-221 | a declined group issues nothing, and the later groups are handled as if it were absent |
| Cleanup.SalesGroups | cleanup.py:202-204 | two records of "sales"@"a.example.com" form one group, led by the first |
| Cleanup.SalesAgentIds | cleanup.py:209-214 | that group's agent ids are "1001" then "1002" |
| Cleanup.SalesRequests | cleanup.py:225-255 | without the domain, the requests are domain, user and queue creation, two agent deletions, then queue, user and domain deletion |
| Cleanup.SalesExample | cleanup.py:197-255 | with the answer "y", the whole run issues exactly those eight requests in that order |

## Left out

- Network I/O: the HTTP request bodies, headers, the bearer token and the module-level configuration (cleanup.py:1-11, 62-194). Each create or delete helper becomes one logged action; the two existence checks become reads of that state.
- Remote.RemoteSystem: the two existence checks read the count from their responses (cleanup.py:68-69, 79-81), which the model gives as set membership. The responses to the create and delete requests are never inspected, so each of those requests is taken to do what it asks. A request that fails on the server is not modelled. Neither are server-side effects, such as a domain deletion also removing its users.
- Console I/O: the `print` calls and the prompt text. `input()` becomes a sequence of answer lines.
- Unicode: `strip()` and `lower()` are modelled on ASCII only. The regular-expression engine is replaced by a direct character-class predicate that keeps Python's `$` newline rule.
- Records.Value: a record value is a string, `None` or a number. Other Python values are not modelled.
- Cleanup.CleanupCallqueueAgents: it requires every orphan record to carry all three fields, and so does `ConfirmAndRepair`. The source is more lenient. It reads the fields with `[]` only inside the agent-id selection (cleanup.py:209-214), and that selection runs only once some valid record forms a group. Even then, `device_aor` is read only from records of that group's queue. So the source raises KeyError on fewer inputs than the precondition excludes. Examples it accepts without error: a list with no valid record, and a record of another queue that lacks `device_aor`. The model neither runs those inputs nor models the crash.
- Cleanup.GroupBuildsAndDeletesAlike: holds only on a consistent remote state, meaning one where every user's domain exists. A state with a user whose domain is missing is outside it.
- Cleanup.GroupRestoresScaffolding: holds only on a consistent remote state, for the same reason.
- Cleanup.SessionRestoresScaffolding: holds only when the run starts from a consistent remote state, for the same reason.
- The discrepancy scanner (nsanity.py) is not part of this model. Its checks are fixed SQL queries run by the database.
