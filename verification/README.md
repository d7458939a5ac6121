# Anything-Tool: verified models of the request scanner and the approval protocol

`anythingd` is a small daemon with two sockets.  Agents ask for a tool on the tool socket;
administrators list, approve, reject and execute those requests on the admin socket.  This
project models, in Dafny, the two parts of it that are easy to get wrong, and proves what
they are for:

* **The hand-written JSON scanner and printer** (`src/common/rpc.c`, `src/common/json.c`,
  and the printer of `src/cli/anythingctl.c`).  Every C loop over a cursor and a bounded
  buffer is a method with a loop and an `array<char>`, proved equal to a function on
  texts.  The functions in turn are proved against grammars and inverses that mention no
  cursor.
* **The approval protocol** (`src/common/approval.c`, `src/daemon/anythingd.c`,
  `src/common/policy.c`, `src/common/audit.c`).  The handlers are methods of a class that
  updates the store, the log and the replies in place; each is proved to take exactly one
  step of a state machine.  The theorems are about every run of that machine: any requests
  on either socket, any clock readings (the clock may go back), any pattern of failing
  audit writes and failing tool runs.

Two smaller parts are modelled in the same way: the socket loops of
`src/common/transport.c` and the path and list code of `src/common/config.c`.

## How it is laid out

| files | what they hold |
|---|---|
| `Bytes`, `JsonString`, `JsonStandard`, `JsonScan`, `JsonTree` | C strings and buffers; the two string scanners and the escaper, and the string of RFC 8259 as their measure; the bracket matcher; nested values as trees |
| `RpcGrammar`, `RpcMembers`, `RpcParams`, `RpcHash`, `RpcParse`, `RpcIgnored`, `RpcReply` | the request grammar, the parser proved to accept exactly that grammar, ignored members, parameter lookup, the hash, the response and list builders |
| `Cli` | the command line printer and its round trip through the parser |
| `Config`, `ConfigText`, `Allowlist`, `Policy`, `Approval`, `Audit` | who is an admin; path prefixes and integer lists; the policy; the store; audit lines and the language of the log |
| `Protocol`, `ProtocolSteps`, `ProtocolRuns`, `ProtocolAudit`, `ProtocolLog`, `ProtocolDue`, `ProtocolOutcome`, `ProtocolAttribution`, `ProtocolWritten`, `ProtocolList` | the step relation, what each step keeps, exactly when it does what, and the properties of whole runs |
| `ProtocolCommands`, `PrintedTexts`, `PrintedReplies` | runs made of printed command lines, from bytes to results; responses and audit lines read back by the scanner |
| `Daemon`, `Transport` | the handlers and the socket loops as imperative code |

Texts are sequences of characters standing for bytes; reading past the end, or reading a
NUL, is reading the terminator.  A buffer `Holds` a text when it starts with it and has a
NUL after it.  In the protocol, peer credentials, the body, one clock reading, the success
of each of the two possible audit writes and the outcome of gathering system information
are inputs of a step.

## What the code does that a reader might not expect

These follow the code and are stated as lemmas or visible in the contracts.

* A request text may stop right after a comma; the closing brace is not needed
  (`RpcParse.TrailingCommaAccepted`).
* An ignored object member of 1024 bytes or more makes the whole request fail, while an
  ignored array of any size does not (`RpcIgnored.IgnoredTree`).
* Rejecting looks at neither the status nor the clock, so an executed request can still
  be rejected.  `ProtocolDue.ExecutedCanBeRejected` says exactly by which requests, and
  `ProtocolCommands.CommandsRejectExecuted` reaches it with printed command lines.
* The design asks for an audit event for every allowed, denied, pending, approved,
  rejected, started and finished request
  (`docs/superpowers/specs/2026-07-14-linux-agent-tool-layer-design.md:154`).  The code
  falls short of it in two ways.  The store is changed before the audit write, so an
  approved request lacks its event exactly when that write fails
  (`ProtocolDue.GrantLacksEvent`).  And some requests are never reported, whatever the
  disk does: those that cannot be read, and those of an authorised admin that change
  nothing, be they the list or a denial.  `ProtocolDue.EventsAreDue` gives the events of
  every request by conditions on the request and the named record;
  `ProtocolCommands.DeniedWithoutTrace` and `ProtocolCommands.PendingStep` are printed
  lines that leave none.
* The requester may not approve their own request (line 157 of the same design), but an
  identity is the triple of user, group and process: the same user in another process
  may.  `ProtocolDue.OnlySameTripleRefused` says that exactly the equal triple is refused.
* The store has 64 slots that are never freed, but the list buffer has room for 32
  requests; with the 33rd, `approval.list` fails for good
  (`ProtocolList.ListAnsweredUntilFull`, reached in `ProtocolCommands.CommandsFillList`).
* A response longer than 4095 bytes is cut and sent all the same
  (`RpcReply.LongAnswerIsCut`, and `ProtocolList.ListSentWhole` for when it happens).
* The scanners know five escapes; RFC 8259 section 7 has four more.  Ids are strings and
  params are objects; section 4 of the JSON-RPC 2.0 specification allows more of both.
* The hash starts from the constant in the code, which is not the published FNV-1a one.

## Model

| member | source | states |
|---|---|---|
| JsonString.ScannersAgree | src/common/rpc.c:32-109 | the decoding and the skipping scanner accept the same strings and stop at the same place |
| JsonString.ParseString | src/common/rpc.c:32-76 | succeeds exactly when a string starts at the cursor and its decoded text is shorter than the buffer; then the buffer holds it and the cursor is after the closing quote |
| JsonString.SkipString | src/common/rpc.c:78-109 | succeeds exactly on the strings of the skipping scanner and leaves the cursor after them |
| JsonString.DecodeAfterEscape | src/common/json.c:23-64 | decoding an escaped NUL-free text gives it back exactly when its only control bytes are newline, return and tab, and is refused otherwise |
| JsonString.EscapeAfterDecode | src/common/rpc.c:32-76 | escaping what was decoded gives back, byte for byte, the string that was read |
| JsonString.EscapeString | src/common/json.c:23-64 | for every input and buffer, the buffer holds the escape cut to fit, and success means nothing was cut |
| JsonString.AppendText | src/common/json.c:14-21 | appends a text, or as much of it as fits, and says which |
| JsonString.EmitEscaped | src/common/json.c:34-61 | one character is appended escaped, cut to fit |
| JsonString.EscapeAtMostDoubles | src/common/rpc.c:312-316 | a text that came out of the decoder at most doubles when escaped |
| JsonString.EscapePrintable | src/common/json.c:51-56 | no control byte survives escaping, whatever the text |
| JsonStandard.StandardReadsEscape | src/common/json.c:23-64 | a reader of section 7 of RFC 8259 gets every NUL-free text back from its escape, control bytes included |
| JsonStandard.DecodeIsStandard | src/common/rpc.c:32-76 | the scanner accepts exactly the strings of RFC 8259 that use only its five escapes, and reads from them what the standard says |
| Bytes.AppendChar | src/common/rpc.c:23-30 | appends one character exactly when there is room for it and the NUL |
| Bytes.SkipSpaces | src/common/rpc.c:16-21 | moves the cursor over exactly the leading white space |
| JsonScan.MatchIsTokens | src/common/rpc.c:111-144 | whatever the bracket matcher reads is a run of well-formed strings and single characters whose depth stays positive until its last token |
| JsonScan.TokensMatch | src/common/rpc.c:111-144 | every such run is read whole, whatever follows it |
| JsonScan.ObjectSliceExact | src/common/rpc.c:111-144 | the slice is u exactly when the text starts with u and u is an object in that sense |
| JsonScan.RescanReproduces | src/common/rpc.c:111-144 | scanning the copied slice again, with anything after it, reads all of it and nothing more |
| JsonScan.CopyObject | src/common/rpc.c:111-144 | copies exactly the object slice, and succeeds exactly when there is one that fits the buffer |
| JsonScan.FindClose | src/common/rpc.c:116-143 | the loop of the object copier and of the array case finds exactly the closing bracket |
| JsonScan.SkipValueAt | src/common/rpc.c:146-187 | the value skipper's cursor and result for every kind of value |
| JsonTree.LevelTree | src/common/rpc.c:116-142 | the text of every nested value is a run of tokens that changes neither bracket depth, so counting one kind of bracket is enough |
| JsonTree.TreeIsSkipped | src/common/rpc.c:146-181 | strings, arrays and objects of any nesting are skipped exactly; objects of 1024 bytes or more, and only those, are refused |
| JsonTree.DictIsSlice | src/common/rpc.c:111-144 | the copier takes exactly the text of an object tree of any depth |
| JsonTree.TreeIsValue | src/common/rpc.c:263-276 | every tree within that limit can stand as params or as an ignored member of the request grammar |
| RpcGrammar.SkippedIsValue | src/common/rpc.c:146-187 | whatever the skipper passes is the text of a well-formed value |
| RpcGrammar.SkipValueText | src/common/rpc.c:146-187 | every well-formed value, with what may follow it, is skipped exactly |
| RpcGrammar.SkipScalarExact | src/common/rpc.c:182-185 | a scalar is exactly the text up to the first comma, closing bracket of either kind, or end |
| RpcMembers.TakeMembersOfText | src/common/rpc.c:230-290 | the member loop reads any list of well-formed members, in any order and spacing, into the fields it stands for, and fails when a reserved key repeats |
| RpcMembers.TakenMembersAreText | src/common/rpc.c:230-290 | whatever the member loop reads is the text of a list of well-formed members without repeated reserved keys |
| RpcParse.ParseOfText | src/common/rpc.c:210-310 | round trip: a well-formed request document is parsed to what it means: the texts of its id and method members, the raw params or the empty object, the session in them or the default, and the hash of the three |
| RpcParse.ParsedIsText | src/common/rpc.c:210-310 | soundness: an accepted text is a request document with one version, id and method and at most one params, and the result is what it means |
| RpcParse.ParseExact | src/common/rpc.c:210-310 | both directions: the parser returns q exactly for the texts of documents that mean q |
| RpcParse.SessionIsFirst | src/common/rpc.c:301-308 | the session is the first depth-1 session_id of the params if it is a string below 64 bytes, and the default otherwise |
| RpcParse.ExtraValueIgnored | src/common/rpc.c:273-276 | replacing the value of an unreserved member by any other well-formed value never changes the result |
| RpcIgnored.IgnoredTree | src/common/rpc.c:273-276 | replacing the value of an unreserved member by any nested value leaves the result as it was, except that an object of 1024 bytes or more, and nothing else, makes the whole request fail |
| RpcParse.TrailingCommaAccepted | src/common/rpc.c:279-283 | dropping the closing brace after one more comma does not change the result |
| RpcParse.ParsedFits | src/common/rpc.c:252-308 | every field of an accepted request is shorter than its buffer and can be escaped and decoded again, and the hash is that of the fields |
| RpcParse.MembersInto | src/common/rpc.c:230-290 | the loop fills the request buffers and the seen flags as the member scanner says |
| RpcParse.ParseInto | src/common/rpc.c:210-310 | the parser on real buffers: success exactly when the text has a meaning, and then the structure stores it |
| RpcParse.TakeInto | src/common/rpc.c:244-276 | the chain of key comparisons reads one value into the right buffer and no other |
| RpcParams.ExtractFindsFirst | src/common/rpc.c:335-366 | on every well-formed object the lookup returns the first depth-1 member with the key if it is a string that fits, and nothing inside strings, arrays or nested objects ever matches |
| RpcParams.LongKeyFails | src/common/rpc.c:343-346 | a key of 64 bytes or more ends the lookup |
| RpcParams.ExtractParam | src/common/rpc.c:335-366 | the lookup on a real buffer |
| RpcHash.HashRequest | src/common/rpc.c:198-208 | the two nested loops compute one fold over method, bar, params, bar, session, and the result is a 64-bit word |
| RpcHash.HashUnwinds | src/common/rpc.c:198-208 | run backwards over the hashed bytes, undoing the multiplication and then the exclusive-or of each, the hash arrives at the starting constant |
| RpcHash.MixInjective | src/common/rpc.c:203-204 | one xor and multiply step modulo 2^64 on words and bytes: equal results mean the words are equal exactly when the bytes are |
| RpcHash.OneByteChangesHash | src/common/rpc.c:198-208 | requests with equal component lengths that differ in one byte have different hashes |
| RpcReply.BuildResult | src/common/rpc.c:312-318 | the buffer holds the response cut to fit and the return value is its whole length, or -1 with the buffer untouched |
| RpcReply.BuildError | src/common/rpc.c:320-333 | the same for error responses, with the three scratch buffers |
| PrintedReplies.ResultIsObject | src/common/rpc.c:312-318 | a result is an object of exactly the version, the id and the payload, and a newline |
| PrintedReplies.ErrorIsObject | src/common/rpc.c:320-333 | an error is an object of exactly the version, the id and an error object with code, message and data |
| RpcReply.ParsedIdFits | src/common/rpc.c:313-316 | the escaped id of every accepted request fits its scratch buffer |
| RpcReply.AnswerWhole | src/common/rpc.c:312-318 | a result is sent whole exactly when the escaped id and the payload leave 36 bytes of 4096 |
| PrintedTexts.ReplyIdReadsBack | src/common/rpc.c:312-318 | the id read from a printed result is the id of the request, also when the response was cut |
| PrintedTexts.ErrorIdReadsBack | src/common/rpc.c:320-333 | the id read from a printed error is the id of the request |
| RpcReply.LongAnswerIsCut | src/daemon/anythingd.c:189-196 | a list that fits its own buffer can still be cut in the response |
| RpcReply.ListJson | src/common/approval.c:105-134 | rendering succeeds exactly when every field fits its scratch buffer and the whole list the output, and then the output is the whole list |
| RpcReply.AppendItem | src/common/approval.c:112-130 | one item is appended whole or the rendering fails |
| PrintedReplies.ItemIsObject | src/common/approval.c:124-126 | an item of the list is an object with the id, method, risk, status number and summary of the record |
| PrintedReplies.StatusIsWord | include/anything/approval.h:18-23 | the four status numbers that clients see |
| PrintedReplies.ListIsObject | src/common/approval.c:105-134 | the list is an object whose one member is the array of the items in store order |
| Cli.MakeRequest | src/cli/anythingctl.c:40-54 | the printed line for every command, cut to the buffer |
| Cli.CommandRoundTrip | src/cli/anythingctl.c:40-54 | for every command and every argument without quotes, backslashes and control bytes the daemon parses the intended request and finds exactly the argument when it fits; too long params are refused, also when the line was cut |
| Cli.LongLineRefused | src/cli/anythingctl.c:40-54 | no cut of a line with too long params is accepted |
| Config.IdentityIsAdmin | src/common/config.c:252-267 | the two loops decide membership in the allowlists, or anyone when no allowlist is required |
| Allowlist.AdminsAreWritten | src/common/config.c:252-267 | from the configuration text: a peer is an admin exactly when its user is written in one list or its group in the other |
| Allowlist.AdminsWithoutLists | src/common/config.c:252-255 | without a required allowlist everyone is an admin, with empty ones nobody |
| ConfigText.UnderIsComponentPrefix | src/common/config.c:77-86 | a path lies under a non-empty root exactly when the root's slash-separated names start the path's |
| ConfigText.UnderIsForest | src/common/config.c:77-86 | lying under is a partial order on non-empty paths in which two ancestors of one path are comparable |
| ConfigText.AuditLogOutside | src/common/config.c:134-139 | the loop accepts exactly when no writable rule covers the audit log, name by name |
| ConfigText.WrittenListParses | src/common/config.c:40-75 | a written list, however spaced and with anything around it, is accepted exactly when it has at most max numbers, and its values come back in order |
| ConfigText.ParsedListIsWritten | src/common/config.c:40-75 | both directions: the accepted texts are exactly the written lists of at most max numbers |
| ConfigText.PrintedNumberReadsBack | src/common/config.c:55-60 | a printed number reads back as itself exactly when it fits a 64-bit long |
| ConfigText.SignedNumberReadsBack | src/common/config.c:55-60 | signs, and the ends of the range to which larger numbers are held |
| ConfigText.TrimExact | src/common/config.c:14-23 | trimming removes blanks and only blanks from both ends until none is left there |
| ConfigText.TrimInPlace | src/common/config.c:14-23 | the two loops remove exactly the blanks at the ends |
| ConfigText.FindBracket | src/common/config.c:41-45 | finds exactly the text after the first opening bracket |
| ConfigText.ReadLong | src/common/config.c:55-63 | reads one number and moves past the blanks after it |
| ConfigText.ParseLongs | src/common/config.c:40-75 | the loop with its in-place trimming and bounded output computes exactly that list |
| Policy.DefaultDeny | src/common/policy.c:6-32 | nothing is allowed without approval, and only an enabled sys.info may ask for one |
| Policy.PolicyResult.Decide | src/common/policy.c:6-32 | fills the result field by field to the verdict of the policy |
| Approval.Store.constructor | src/common/approval.c:15-18 | an empty store whose next id is 1 |
| Approval.Store.Add | src/common/approval.c:20-38 | appends one pending record with the next id and the request's session, method, params and hash, each text whole or cut to its buffer, or leaves a full store alone |
| Approval.Store.Find | src/common/approval.c:40-47 | returns the first slot with the id |
| Approval.Store.Grant | src/common/approval.c:49-69 | the first applicable refusal in the code's order, or only status and approver of that slot change |
| Approval.Store.Reject | src/common/approval.c:71-83 | refused only for an unknown record or its own requester; otherwise status and approver change |
| Approval.Store.ValidateForExecute | src/common/approval.c:85-103 | the first applicable refusal in the code's order; the record is unchanged |
| Approval.FindExact | src/common/approval.c:40-47 | slot k is found exactly by req_(k+1) in canonical decimal and every other text finds nothing |
| Approval.RequestIdInjective | src/common/approval.c:26 | different numbers give different ids |
| Audit.WriteEvent | src/common/audit.c:114-161 | a line is written exactly when all eight escaped fields fit their buffers and the file accepts it |
| Audit.KindsAreContract | src/common/audit.c:14-32 | the kinds of events that the handlers write and the names of the audit contract are the same, one for one |
| Audit.IsKnownEvent | src/common/audit.c:25-32 | the loop decides membership in the contract's list |
| PrintedTexts.EventNameReadsBack | src/common/audit.c:143-147 | the name of each kind of event as a reader of the log finds it |
| Audit.EventIsOneLine | src/common/audit.c:143-155 | whatever bytes the fields hold, an event is one line |
| PrintedTexts.LineReadsBack | src/common/audit.c:143-155 | the scanner reads every text of an event back from its printed line |
| PrintedTexts.LineIsObject | src/common/audit.c:143-155 | a printed line is one object whose depth-1 members are exactly the event's, with caller and approver as objects of user, group and process |
| Audit.EndFollowsStart | src/daemon/anythingd.c:151-170 | in the log language, the end of an execution directly follows its own start |
| Audit.OnlyRejectionsAfter | src/daemon/anythingd.c:225-231 | in the log language, only rejections follow a finished execution or a rejection |
| ProtocolSteps.CopyIsLossless | src/daemon/anythingd.c:111-149 | rebuilding the request from a stored record gives the stored hash, and the policy still asks for approval |
| ProtocolSteps.StepEffect | src/daemon/anythingd.c:46-237 | every request does one of five things to the store; for each, the conditions it needs, the new store, the events and the reply |
| ProtocolSteps.StepActs | src/daemon/anythingd.c:46-237 | records are added on the tool socket only and granted, rejected and run on the admin socket only, by the connected peer at the step's clock |
| ProtocolSteps.StepKeepsInvariant | src/daemon/anythingd.c:46-237 | every step keeps ids numbered in order and every record an approvable request with a matching hash |
| ProtocolRuns.Reachable | src/daemon/anythingd.c:46-237 | the invariant holds in every reachable state |
| ProtocolRuns.ExecutionSafety | src/daemon/anythingd.c:121-171 | every execution in every run follows a grant of the same record by an authorised admin other than its requester, with no rejection or success in between, and both are within the time to live of the record's creation |
| ProtocolRuns.StatusRises | src/common/approval.c:20-103 | along every run a record changes only status and approver, and its status only rises: pending, granted, executed, rejected |
| ProtocolRuns.OncePerRecord | src/common/approval.c:49-103 | each record is granted at most once and succeeds at most once |
| ProtocolRuns.TotalsBounded | src/daemon/anythingd.c:46-237 | successes are at most grants, grants at most records, records exactly those added and at most 64 |
| ProtocolRuns.OneReplyEach | src/daemon/anythingd.c:46-237 | every request gets exactly one reply, in order |
| ProtocolRuns.OneResultPerRecord | src/daemon/anythingd.c:159-170 | no two replies carry system information for the same request id |
| ProtocolAudit.LogInLanguage | src/daemon/anythingd.c:36-44 | in every reachable log the events about an id form a word of the log language, in a phase that fits the record's status; ids not handed out have none |
| ProtocolAudit.AuditOrdering | src/daemon/anythingd.c:151-170 | each execution end directly follows its start, and nothing but rejections follows a finish or a rejection |
| ProtocolAudit.ResultIsLogged | src/daemon/anythingd.c:151-170 | whenever a result was sent, the log holds the start and the finish of that execution next to each other |
| ProtocolAudit.NeverChanged | src/daemon/anythingd.c:134-149 | the refusals for a changed request and a failed recheck are never sent |
| ProtocolAudit.GrantedIsExecutable | src/daemon/anythingd.c:121-154 | executing a granted, unexpired record always gets as far as auditing the start, and runs the tool if that write succeeds |
| ProtocolAudit.AuditFailureIsIo | src/common/audit.c:122-141 | no audit write fails for lack of buffer space |
| ProtocolAudit.ToolFrame | src/daemon/anythingd.c:46-109 | a tool request appends at most one pending record of its peer and touches no other |
| ProtocolAudit.AdminFrame | src/daemon/anythingd.c:173-237 | an admin request changes at most status and approver of one record |
| ProtocolLog.ToolStepLogged | src/daemon/anythingd.c:46-109 | an unreadable request leaves no trace and nothing else happens before the receipt is logged; then exactly the approvable requests are stored, and the log holds exactly the receipt and one more event unless its write failed or the store was full |
| ProtocolDue.ActIsDue | src/daemon/anythingd.c:46-237 | a request adds, grants, rejects or runs exactly when its body, peer, clock, named record and first audit write meet the stated conditions: necessary and sufficient, for both sockets |
| ProtocolDue.EventsAreDue | src/daemon/anythingd.c:46-237 | the events of every request by conditions on the request and the named record; at least one is logged exactly when it can be read, the first write goes through and it is not an authorised admin request that changes nothing |
| ProtocolOutcome.OutcomeIsDue | src/daemon/anythingd.c:46-237 | the whole outcome of every request, written out from the promises: the new store with the record as it was asked for, the events field by field, and the reply with its reason for every refusal, failed tool and failed write |
| ProtocolOutcome.RunIsDue | src/daemon/anythingd.c:46-237 | over every run, the log is event by event what the requests called for and every reply is the one that was due |
| ProtocolOutcome.RecordIsRequest | src/common/approval.c:24-35 | every stored record is, but for status and approver, the request of the step that added it: id, hash, requester, session, method, params, expiry |
| ProtocolOutcome.LogIsSpelled | src/common/audit.c:114-155 | every event of every reachable log has the decision, risk and error kind of its kind, and those about no record name the peer, session and method of a request of the run |
| ProtocolDue.GrantLacksEvent | src/daemon/anythingd.c:216-222 | an approved record lacks its event exactly when the write fails |
| ProtocolDue.ExecutedCanBeRejected | src/common/approval.c:71-83 | an executed record leaves that status exactly by a readable reject request that names it, from an authorised admin whose identity is not the requester's |
| ProtocolDue.OnlySameTripleRefused | src/common/approval.c:62-65 | approving a pending record in time is refused exactly when user, group and process are all the requester's |
| ProtocolCommands.CommandsRunTool | src/cli/anythingctl.c:40-54 | after any run with a free slot, the printed sys-info, approve and execute lines add, grant and run the next record, which holds the typed session, and the last reply carries the tool's text |
| ProtocolCommands.CommandsRejectExecuted | src/common/approval.c:71-83 | one more printed line takes the executed record to rejected |
| ProtocolCommands.AsksFillStore | src/daemon/anythingd.c:84-89 | n readable sys.info requests leave exactly n records, up to 64 |
| ProtocolCommands.CommandAsks | src/cli/anythingctl.c:41-42 | every printed sys-info line whose params fit is such a request |
| ProtocolCommands.CommandsFillList | src/daemon/anythingd.c:189-198 | listing after n requests answers with all of them for n up to 32 and with an error for more |
| ProtocolCommands.PendingStep | src/daemon/anythingd.c:189-198 | the printed pending line is answered with the list, changes nothing and is not logged |
| ProtocolCommands.DeniedWithoutTrace | src/daemon/anythingd.c:215-217 | the denial of a self-approval, and an empty body, leave nothing in the log although every write would succeed |
| ProtocolWritten.LogTellsStatus | src/daemon/anythingd.c:151-231 | in a run whose audit writes all succeed, the events about an id tell whether its record exists and which status it has |
| ProtocolLog.NewRecordFits | src/daemon/anythingd.c:91-100 | the branch for an approval response that is too large is never taken |
| ProtocolAttribution.LogIsAttributed | src/daemon/anythingd.c:46-237 | in every reachable log an event is the receipt or denial of a request of the run and names its peer, session and method, or it is about a stored record, names that record's requester, session, method and risk and, but for the request for approval, an authorised admin; the identity that grants or rejects, as a triple of user, group and process, is never the requester's |
| ProtocolAttribution.ReplyCarriesId | src/daemon/anythingd.c:46-237 | reply k of every run carries the id of request k, or null when it could not be read |
| ProtocolList.ListAnsweredUntilFull | src/daemon/anythingd.c:189-198 | in every reachable state the list is answered, complete, exactly when at most 32 requests are stored |
| ProtocolList.ListSentWhole | src/daemon/anythingd.c:189-198 | the listing response is cut exactly when 32 requests are stored and the escaped id takes 88 bytes or more |
| Daemon.DaemonState.CheckedAudit | src/daemon/anythingd.c:36-44 | the event is logged, or the audit failure is answered, never both |
| Daemon.DaemonState.HandleTool | src/daemon/anythingd.c:46-109 | the handler takes exactly the tool step of the protocol |
| Daemon.DaemonState.AskApproval | src/daemon/anythingd.c:84-108 | the record is added before its audit write and stays if that write fails |
| Daemon.DaemonState.HandleAdmin | src/daemon/anythingd.c:173-237 | the handler takes exactly the admin step of the protocol |
| Daemon.DaemonState.Execute | src/daemon/anythingd.c:128-171 | the execute handler takes exactly the execute step |
| Daemon.DaemonState.Handle | src/daemon/anythingd.c:239-279 | one connection takes exactly one step of the protocol |
| Daemon.DaemonState.Serve | src/daemon/anythingd.c:239-279 | serving any list of connections from the start ends in the state of that run, and the audit file holds one printed line for each event of its log, in order |
| Transport.ReadExact | src/common/transport.c:76-112 | under any partial reads, interruptions and clock readings a message is returned exactly when one is complete after some number of reads, and it is the concatenation of their chunks |
| Transport.ReadFailsExactly | src/common/transport.c:80-108 | the read loop fails, waits, is too slow or too long exactly under the stated conditions on the reads and the clock |
| Transport.ReadRequest | src/common/transport.c:76-112 | the loop on the real buffer, which then holds the message with its NUL |
| Transport.WriteExact | src/common/transport.c:114-128 | the write loop is done exactly when the calls before the first broken one accept all bytes, and fails exactly when a call breaks before that |
| Transport.InterruptionsDoNotMatter | src/common/transport.c:119-122 | interrupted calls change neither the end nor what is sent |
| Transport.WriteResponse | src/common/transport.c:114-128 | the bytes sent are the first of the response, in order and once, as many as were accepted before a call broke; done, failed or unfinished accordingly |

## Left out

- Sockets, peer credentials, poll, signals and the main loop: system calls; the peer and the order of requests are inputs.
- The text of the system information: an arbitrary text or one of the three failures of `src/tools/sys_info.c`.
- The file system: opening and resolving the audit path; an audit write appends a whole line or fails. The checks of `anything_audit_validate_startup` are not modelled.
- Timestamps of audit lines: any printable text. `time(NULL)` is one reading per step.
- Wording and numeric codes of replies: a reply carries its kind and the values that vary; the `data` part of the approval response is the record it is formatted from.
- The configuration file's line splitting, its chain of key names and the one-condition checks of the validator: nothing beyond their own bodies could be said.
- Failures to write a response: the handlers ignore them.
- Null pointers: the escaper, the extractor and the audit writer are given strings.
- Machine integers: depths, counts, clock values and identities are unbounded, except the 64-bit hash and the `long` values of the configuration.
- Strength of the hash in general: only the single-byte property is claimed.
- Encodings: text is bytes, and no UTF-8 property is stated.
- Blocking: a read or write loop that gets no further turn from its environment is reported as waiting; the real call would block.
- Audit.WriteEvent: does not model the part of a line that a failing sequence of writes may leave behind.
