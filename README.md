# WeChat message processor: a Dafny model

This project models `WeChatMsgProcessor`, the object of the WeChat bot that
answers the messages the client receives. It makes two kinds of decisions.

**Personal messages** (`handle_user_msg`). The first whitespace token of the
text picks a branch.
- The branches reply with fixed texts, query the traffic file `sstraffic` or
  the credential file `ssusers`, bind or unbind the sender, or change the
  sender's password through a shell command.
- The binding lives in the sender's remark name: `"SS <port>"` when bound,
  `""` after unbinding.
- An unbound sender who asks for something that needs a binding gets a
  notice first. The branch then runs anyway.

**Group messages** (`handle_group_msg`).
- Every group message adds one row to the message log.
- A system notification (type 10000) is searched for the "member joined" and
  "group renamed" patterns. A match adds a row, and a rename also patches the
  client's group list.
- A text of the form `@<bot name><U+2005><command>` is handed to
  `handle_command`. It finds the group's id by its name and sends the
  message that the command word asks for.

Uncaught Python exceptions are part of the behaviour and are modelled as an
`Outcome.Crash` with a `Fault`. Whatever was sent or written before the
exception stays sent or written. For example, an unbound sender of "2"
whose remark has fewer than two tokens gets the notice, and then `get_port`
raises `IndexError` (`Fault.NoPort`). `get_port` reads the second token
whatever the first one is, so an unbound sender whose remark is, say,
"Bob 30000" gets the notice and then the branch runs on port 30000
(`Personal.UnboundRemarkStillChangesPassword`,
`Personal.UnboundRemarkStillLooksUpTraffic`).

## Modules

- `Outcomes` (outcomes.dfy): `Option`, the faults, how a message's handling
  ends, and the send calls as `Event` values.
- `Tokens` (tokens.dfy): Python 2 `str.split()`, `strip()` and `find()` on
  strings whose whitespace is the six ASCII whitespace characters.
- `Binding` (binding.dfy): the binding state a remark name encodes, and
  `long()` on a port.
- `LineScan` (scan.dfy): the three "first deciding line" scans over a file's
  lines. They are given as a specification function `Scan` and a loop method
  `ScanLines` proved equal to it.
- `Personal` (personal.dfy): the command classification and the effect of
  every personal-message handler, as functions of the sender's remark, the
  file contents and the external results. The lemmas about the binding state
  machine are here.
- `Notifications` (notifications.dfy): the two `re.search` patterns. These
  follow Python's leftmost-then-greedy semantics, with `.` excluding newline.
- `Groups` (groups.dfy):
  - the group list, the rename patch and the `g_id` lookup;
  - the `@self` extraction and the in-group commands.
- `Processor` (processor.dfy): the class `MsgProcessor`. Its state is:
  - the contacts' remark names (`remarks`);
  - the group list (`groupList`);
  - the bot's own nickname and remark name;
  - every send call (`sent`);
  - every shell command (`commands`);
  - the three database tables (`msgLog`, `enterLog`, `renameLog`).

  Each method is proved to change that state exactly as the corresponding
  effect function says.

Facts about the code that the model follows:
- A comment line in `ssusers`/`sstraffic` is one whose first token is
  exactly `#`. A line such as `#8388 pw` is not a comment.
- The scans are not defensive. A blank line raises `IndexError` on
  `elements[0]`. A one-token line whose token is the port raises on
  `elements[1]` during registration. Both are modelled as faults.
- The rename patch selects the group-list entry whose `UserName` equals the
  message's `from_user_name`.

## Model

| member | source | states |
|---|---|---|
| Tokens.SplitEmptyIffBlank | wxbot_project_py2.7/wx_handler/wechat_msg_processor.py:198-204 | `split()` yields no token, so `cmd[0]` raises, exactly for empty or whitespace-only text |
| Tokens.SplitJoin | wxbot_project_py2.7/wx_handler/wechat_msg_processor.py:198 | splitting the space-joined list of tokens gives that list back |
| Tokens.Split | wxbot_project_py2.7/wx_handler/wechat_msg_processor.py:198 | `split()` yields tokens only: each element is non-empty and has no whitespace |
| Tokens.SplitSkipsSpace | wxbot_project_py2.7/wx_handler/wechat_msg_processor.py:198 | leading whitespace of any kind and length (spaces, tabs, newlines, runs of them) is dropped by `split()` |
| Tokens.SplitToken | wxbot_project_py2.7/wx_handler/wechat_msg_processor.py:198 | a token followed by the end or by whitespace is the first element and the rest is split on its own; with `SplitSkipsSpace` this fixes `split()` on every string |
| Tokens.Strip | wxbot_project_py2.7/wx_handler/wechat_msg_processor.py:342 | the stripped command has no whitespace at either end, and it is a contiguous part of the input with only whitespace around it; it is empty only for whitespace-only input |
| Tokens.StripTrimmed | wxbot_project_py2.7/wx_handler/wechat_msg_processor.py:342 | a command whose ends are not whitespace, such as each command word, is left unchanged by `strip()` |
| Tokens.StripFirst | wxbot_project_py2.7/wx_handler/wechat_msg_processor.py:342 | a command that does not start with whitespace keeps its first character after `strip()` |
| Tokens.IndexOf | wxbot_project_py2.7/wx_handler/wechat_msg_processor.py:181 | `find` gives -1 exactly when the character is absent, and otherwise the position of its first occurrence |
| Binding.PortOf | wxbot_project_py2.7/wx_handler/wechat_msg_processor.py:293-297 | `get_port` succeeds exactly when the remark has at least two tokens, and then returns a token; `PortOfIff` says it is the second one |
| Binding.PortOfIff | wxbot_project_py2.7/wx_handler/wechat_msg_processor.py:293-297 | `get_port` returns `p` exactly when `p` is the remark's second token, `names[1]`, whatever the first token and the tokens after it are |
| Binding.IsRegistered | wxbot_project_py2.7/wx_handler/wechat_msg_processor.py:322-328 | a registered remark always has a port for `get_port`; the exact condition is given by `RegisteredIff` |
| Binding.Decode | wxbot_project_py2.7/wx_handler/wechat_msg_processor.py:322-328 | a remark decodes as bound exactly when `is_registered` holds, and the bound port is what `get_port` returns |
| Binding.RegisteredIff | wxbot_project_py2.7/wx_handler/wechat_msg_processor.py:322-328 | `is_registered` holds iff the remark's tokens are "SS", a port, and possibly more |
| Binding.BindRegisters | wxbot_project_py2.7/wx_handler/wechat_msg_processor.py:310-312 | after the remark is set to "SS " + port, the contact is registered and `get_port` returns that port |
| Binding.UnbindUnregisters | wxbot_project_py2.7/wx_handler/wechat_msg_processor.py:318-320 | after the remark is cleared, the contact is not registered and has no port |
| Binding.BoundRemarkSplits | wxbot_project_py2.7/wx_handler/wechat_msg_processor.py:311 | the remark "SS " + port splits into exactly "SS" and the port |
| Binding.DecodeEncode | wxbot_project_py2.7/wx_handler/wechat_msg_processor.py:311-328 | decoding the remark written for a binding state gives that state back |
| Binding.EncodeDecode | wxbot_project_py2.7/wx_handler/wechat_msg_processor.py:311-328 | re-encoding a decoded remark keeps its binding state |
| Binding.DigitsValueDecimal | wxbot_project_py2.7/wx_handler/wechat_msg_processor.py:243 | the decimal digits of a natural number have that number as their value |
| Binding.ParseLongDecimal | wxbot_project_py2.7/wx_handler/wechat_msg_processor.py:243 | `long()` of the decimal representation of n is n |
| Binding.DecimalIsToken | wxbot_project_py2.7/wx_handler/wechat_msg_processor.py:295-296 | a decimal port is a single token |
| Binding.ParseLong | wxbot_project_py2.7/wx_handler/wechat_msg_processor.py:243 | `long()` succeeds exactly on digits with an optional sign in front and an optional `L`/`l` behind, and raises otherwise; a digit string gives its decimal value, "-" and digits the negated value, and a negative result needs a leading "-" |
| Binding.ParseLongForms | wxbot_project_py2.7/wx_handler/wechat_msg_processor.py:243 | "+" keeps the value, "-" negates it, and a trailing `L` or `l` is ignored, with or without a sign |
| LineScan.Judge | wxbot_project_py2.7/wx_handler/wechat_msg_processor.py:303-309 | a line raises exactly when it is blank, or, in a credential scan, exactly when it is a one-token non-comment line whose token is the port; it is taken exactly when it matches the rule, and skipped otherwise |
| LineScan.ScanFrom | wxbot_project_py2.7/wx_handler/wechat_msg_processor.py:259-267 | the scan ends at the first line that is taken or raises, and every earlier line is skipped; with no such line it finds nothing |
| LineScan.ScanLines | wxbot_project_py2.7/wx_handler/wechat_msg_processor.py:302-309 | the `for ... break` loop returns the scan's result |
| LineScan.CleanScan | wxbot_project_py2.7/wx_handler/wechat_msg_processor.py:273-281 | on a file with no raising line, the scan finds a line exactly when one is listed, and then the first such line |
| LineScan.ScanFromAppend | wxbot_project_py2.7/wx_handler/wechat_msg_processor.py:274-281 | lines after the deciding line do not change the result |
| Personal.Classify | wxbot_project_py2.7/wx_handler/wechat_msg_processor.py:207-230 | "1" to "6" select the hint, traffic, reset-date, account, password-hint and "other" branches, each exactly on its digit; binding needs the word and two more tokens, a password change needs one more, "解除绑定" always unbinds, and every other message gets the menu |
| Personal.RegistrationIffListed | wxbot_project_py2.7/wx_handler/wechat_msg_processor.py:299-316 | with no raising line, the sender is bound with the single reply "绑定成功" exactly when some non-comment line has the port and the password; otherwise the remark is unchanged and the single reply is "端口或密码错误" |
| Personal.RegistrationRegisters | wxbot_project_py2.7/wx_handler/wechat_msg_processor.py:310-313 | after a successful binding the remark is the encoding of the bound state, decodes to it, is registered, and `get_port` returns the port |
| Personal.RegistrationFailureKeepsRemark | wxbot_project_py2.7/wx_handler/wechat_msg_processor.py:314-315 | a binding that finds no line leaves the remark as it was |
| Personal.UnbindingClears | wxbot_project_py2.7/wx_handler/wechat_msg_processor.py:318-320 | unbinding writes the encoding of the unbound state from any state, so the sender is not registered and has no port, and replies "解绑成功" |
| Personal.BindThenUnbind | wxbot_project_py2.7/wx_handler/wechat_msg_processor.py:299-320 | a successful binding decodes to the bound port, and unbinding after it decodes to the unbound state with no port |
| Personal.ChangePasswordGate | wxbot_project_py2.7/wx_handler/wechat_msg_processor.py:241-253 | a port below 20000 gets "该账号不支持修改密码" and runs no command; otherwise one command runs, and the reply is the success text with the password exactly when the exit status is 0 and "修改失败" otherwise; the remark never changes |
| Personal.ChangePasswordAfterBind | wxbot_project_py2.7/wx_handler/wechat_msg_processor.py:241-248 | for a sender bound to the decimal port n, a command runs exactly when n is at least 20000 |
| Personal.ChangePasswordFaults | wxbot_project_py2.7/wx_handler/wechat_msg_processor.py:242-243 | a remark without a port, or with a non-numeric one, raises before anything is sent or run |
| Personal.RegistrationEffect | wxbot_project_py2.7/wx_handler/wechat_msg_processor.py:299-316 | no command runs and at most one reply; the remark is set to "SS " + port, with the reply "绑定成功", exactly when the scan finds the credentials; the handler raises, sending nothing, exactly when the scan does |
| Personal.UnregistrationEffect | wxbot_project_py2.7/wx_handler/wechat_msg_processor.py:318-320 | unbinding always finishes, runs nothing and writes a remark that is not registered and has no port |
| Personal.ChangePasswordEffect | wxbot_project_py2.7/wx_handler/wechat_msg_processor.py:241-253 | the remark never changes, at most one reply and one command; no port raises; the handler finishes exactly when the port parses as a number; the command runs only for a port of at least 20000 and is the `ssadmin.sh cpw` line for that port |
| Personal.TrafficEffect | wxbot_project_py2.7/wx_handler/wechat_msg_processor.py:270-282 | no remark change, no command, at most one reply; no port raises; a reply is sent only when the scan of `sstraffic` found a line |
| Personal.InfoEffect | wxbot_project_py2.7/wx_handler/wechat_msg_processor.py:255-268 | no remark change, no command, at most one reply; no port raises; a reply is sent only when the scan of `ssusers` found a line |
| Personal.TrafficReply | wxbot_project_py2.7/wx_handler/wechat_msg_processor.py:270-282 | at most one reply, built from fields 1 to 3 of the first line for the port with more than three fields; whenever that line is found the handler finishes with exactly one reply; in a file with no raising line, nothing is sent exactly when no line is listed |
| Personal.TrafficIgnoresLaterLines | wxbot_project_py2.7/wx_handler/wechat_msg_processor.py:274-281 | the loop breaks at the line it answers from, so lines after it, blank ones included, do not change the reply |
| Personal.InfoReply | wxbot_project_py2.7/wx_handler/wechat_msg_processor.py:255-268 | at most one reply, with the host IP, the port and field 1 of the first line for the port with more than one field; whenever that line is found the handler finishes with exactly one reply; in a file with no raising line, nothing is sent exactly when no line is listed |
| Personal.BlankTextFaults | wxbot_project_py2.7/wx_handler/wechat_msg_processor.py:198-204 | the router raises before sending anything exactly when the text is empty or whitespace |
| Personal.DispatchEffect | wxbot_project_py2.7/wx_handler/wechat_msg_processor.py:207-238 | each branch sends at most one reply and runs at most one command; only "绑定" and "解除绑定" change the remark, only "改密码" runs a command, and only the binding, traffic, account and password branches can raise, before sending |
| Personal.NeedsNotice | wxbot_project_py2.7/wx_handler/wechat_msg_processor.py:204-206 | the notice goes out only for a command word from a sender whose remark decodes as unbound |
| Personal.RouteEffect | wxbot_project_py2.7/wx_handler/wechat_msg_processor.py:204-239 | a split command produces at most two replies, the notice and the branch reply, and runs at most one command |
| Personal.UserMsgEffect | wxbot_project_py2.7/wx_handler/wechat_msg_processor.py:186-239 | one message sends at most two replies, the notice and the branch reply, and runs at most one command |
| Personal.NoticeThenBranch | wxbot_project_py2.7/wx_handler/wechat_msg_processor.py:203-230 | an unbound sender of "2", "4", "5", "解除绑定" or "改密码" gets the notice and then the branch's whole effect; any other message gets only the branch |
| Personal.UnboundRemarkStillChangesPassword | wxbot_project_py2.7/wx_handler/wechat_msg_processor.py:241-248 | a sender whose remark is "<name> <port>" with a first token other than "SS" is unbound, gets the notice for "改密码 <password>", and the password of that port is still changed |
| Personal.UnboundRemarkStillLooksUpTraffic | wxbot_project_py2.7/wx_handler/wechat_msg_processor.py:270-276 | such a sender sending "2" gets the notice and then the whole traffic lookup for the remark's second token |
| Personal.ShortCommandsGetMenu | wxbot_project_py2.7/wx_handler/wechat_msg_processor.py:224-238 | "绑定" with fewer than three tokens, "改密码" with fewer than two and any unknown word get the menu reply only, after the notice where it applies |
| Personal.RemarkChangesOnlyOnBindOrUnbind | wxbot_project_py2.7/wx_handler/wechat_msg_processor.py:207-238 | the remark changes only in the binding and unbinding branches |
| Personal.CommandsOnlyOnChangePassword | wxbot_project_py2.7/wx_handler/wechat_msg_processor.py:228-229 | a shell command runs only in the password-change branch |
| Personal.BindMessage | wxbot_project_py2.7/wx_handler/wechat_msg_processor.py:224-225 | the message "绑定 port password" has exactly the registration handler's effect, without a notice |
| Personal.UnbindMessage | wxbot_project_py2.7/wx_handler/wechat_msg_processor.py:204-227 | "解除绑定" always clears the remark; an unbound sender gets the notice before the confirmation |
| Personal.BindThenUnbindMessages | wxbot_project_py2.7/wx_handler/wechat_msg_processor.py:196-227 | after a successful "绑定" message, "解除绑定" gets no notice and leaves the sender unregistered |
| Notifications.FindEnter | wxbot_project_py2.7/wx_handler/wechat_msg_processor.py:119-121 | the join pattern fails exactly when no match exists; otherwise the name is the group of the match `re.search` reports, and it is non-empty and newline-free |
| Notifications.EnterSearch | wxbot_project_py2.7/wx_handler/wechat_msg_processor.py:119 | the search from a position returns the leftmost match with the greedy group, or reports that none starts there or later |
| Notifications.EnterMatchesDecomposition | wxbot_project_py2.7/wx_handler/wechat_msg_processor.py:119-120 | any text containing "邀请", a non-empty newline-free name and "加入了群聊" matches |
| Notifications.EnterNotification | wxbot_project_py2.7/wx_handler/wechat_msg_processor.py:119-121 | for the notification "<inviter>邀请<name>加入了群聊" with no "邀请" in the inviter, the recorded name is exactly `name` |
| Notifications.FindRename | wxbot_project_py2.7/wx_handler/wechat_msg_processor.py:133-136 | the rename pattern fails exactly when no match exists; otherwise the actor and the new name are the groups of the reported match, and both are non-empty and newline-free |
| Notifications.RenameSearch | wxbot_project_py2.7/wx_handler/wechat_msg_processor.py:133 | the search from a position returns the leftmost match with both groups greedy |
| Notifications.RenameMatchesDecomposition | wxbot_project_py2.7/wx_handler/wechat_msg_processor.py:133-134 | any text containing a non-empty actor, "修改群名为“", a non-empty name and "”", all on one line, matches |
| Notifications.RenameNotification | wxbot_project_py2.7/wx_handler/wechat_msg_processor.py:133-136 | for the notification "<actor>修改群名为“<name>”", with no "“" in the name, the groups are exactly the actor and the name |
| Groups.FirstWithIdFrom | wxbot_project_py2.7/wx_handler/wechat_msg_processor.py:147-150 | the rename loop stops at the first entry with the group's id, and earlier entries have other ids |
| Groups.RenamedList | wxbot_project_py2.7/wx_handler/wechat_msg_processor.py:147-150 | the patch keeps the list's length and every entry's id |
| Groups.RenamedOnlyFirst | wxbot_project_py2.7/wx_handler/wechat_msg_processor.py:147-150 | the patch renames only the first entry with the id and changes nothing else; with no such entry the list is unchanged |
| Groups.LastWithNick | wxbot_project_py2.7/wx_handler/wechat_msg_processor.py:338-340 | the lookup finds the last entry with the group's name, or none when no entry has it |
| Groups.GroupIdFor | wxbot_project_py2.7/wx_handler/wechat_msg_processor.py:337-340 | a non-empty `g_id` is the id of some group with the name |
| Groups.GroupIdForMeaning | wxbot_project_py2.7/wx_handler/wechat_msg_processor.py:337-340 | `g_id` is the id of the last group with the name, and `''` when no group has it |
| Groups.RenameThenResolve | wxbot_project_py2.7/wx_handler/wechat_msg_processor.py:147-150 | after the patch, the new name resolves to the renamed group unless a later entry already has that name |
| Groups.MentionCommand | wxbot_project_py2.7/wx_handler/wechat_msg_processor.py:179-184 | when the text has a separator, a command is extracted exactly when the text starts with '@' and the part before the first separator is the bot's nickname or remark name, and the command is the rest; without a separator, any extracted command is the whole text |
| Groups.MentionDecomposition | wxbot_project_py2.7/wx_handler/wechat_msg_processor.py:180-184 | "@<bot name><U+2005><rest>" hands exactly `rest` to `handle_command` |
| Groups.CommandEvent | wxbot_project_py2.7/wx_handler/wechat_msg_processor.py:342-367 | a command sends at most one message, always to the resolved group, and only for one of the five command words |
| Groups.GroupCommandEvents | wxbot_project_py2.7/wx_handler/wechat_msg_processor.py:343-365 | each command word sends its own message: the run time, the image, the file, the bot's reply when it is non-empty, and the emoticon picked by the clock modulo 10 |
| Groups.AtCommandSendsNothing | wxbot_project_py2.7/wx_handler/wechat_msg_processor.py:342-367 | a command that starts with '@' sends nothing |
| Groups.NoSeparatorSendsNothing | wxbot_project_py2.7/wx_handler/wechat_msg_processor.py:181-184 | a mention without a separator passes the whole text on, which sends nothing |
| Processor.GroupMsgRows | wxbot_project_py2.7/wx_handler/wechat_msg_processor.py:117-150 | a group message adds at most one row to each notification table; a rename row comes with the patch of the group list to its new name; a non-notification adds no row and leaves the group list as it was |
| Processor.NotificationRowsIff | wxbot_project_py2.7/wx_handler/wechat_msg_processor.py:117-144 | a notification gets a join row exactly when the join pattern matches, and a rename row exactly when the rename pattern does; without a rename row the group list is unchanged |
| Processor.MentionAtMostOne | wxbot_project_py2.7/wx_handler/wechat_msg_processor.py:179-184 | a group message sends at most one message, always to the group its name resolves to, and only when its text starts with '@' |
| Processor.JoinLogged | wxbot_project_py2.7/wx_handler/wechat_msg_processor.py:119-130 | the notification "<inviter>邀请<name>加入了群聊" is logged with the message's ids, its group and `name` |
| Processor.RenameLoggedAndResolved | wxbot_project_py2.7/wx_handler/wechat_msg_processor.py:133-150 | a rename notification is logged with the actor and the new name, and afterwards the new name resolves to the sending group |
| Processor.RuntimeMention | wxbot_project_py2.7/wx_handler/wechat_msg_processor.py:180-184 | "@<bot name><U+2005>runtime" sends the run time to the resolved group and nothing else |
| Processor.EnterRows | wxbot_project_py2.7/wx_handler/wechat_msg_processor.py:119-130 | a join row carries the message's id, group, sender, receiver and time |
| Processor.RenameRows | wxbot_project_py2.7/wx_handler/wechat_msg_processor.py:133-144 | a rename row carries the message's id, group and time |
| Processor.ListAfter | wxbot_project_py2.7/wx_handler/wechat_msg_processor.py:145-150 | a group message keeps the group list's length and every entry's id |
| Processor.MentionEvents | wxbot_project_py2.7/wx_handler/wechat_msg_processor.py:179-184 | a group message sends something only when a command was extracted from its text |
| Processor.MsgProcessor.QueryRegistered | wxbot_project_py2.7/wx_handler/wechat_msg_processor.py:322-328 | the result is `is_registered` of the sender's remark |
| Processor.MsgProcessor.QueryPort | wxbot_project_py2.7/wx_handler/wechat_msg_processor.py:293-297 | the result is `get_port` of the sender's remark: its second token, or no port where `names[1]` raises |
| Processor.MsgProcessor.HandleRegistration | wxbot_project_py2.7/wx_handler/wechat_msg_processor.py:299-316 | carries out the registration effect: the outcome, the replies and the sender's new remark |
| Processor.MsgProcessor.HandleUnregistration | wxbot_project_py2.7/wx_handler/wechat_msg_processor.py:318-320 | clears the sender's remark and sends "解绑成功"; nothing else changes |
| Processor.MsgProcessor.HandleChangePassword | wxbot_project_py2.7/wx_handler/wechat_msg_processor.py:241-253 | carries out the password-change effect on the replies and the shell commands |
| Processor.MsgProcessor.HandleUserInfoCheck | wxbot_project_py2.7/wx_handler/wechat_msg_processor.py:255-268 | carries out the account-query effect; only the replies change |
| Processor.MsgProcessor.HandleTrafficCheck | wxbot_project_py2.7/wx_handler/wechat_msg_processor.py:270-282 | carries out the traffic-query effect; only the replies change |
| Processor.MsgProcessor.HandleUserMsg | wxbot_project_py2.7/wx_handler/wechat_msg_processor.py:186-239 | an unknown sender raises with nothing changed; otherwise the outcome, the replies, the remark and the shell commands are those of the router's effect |
| Processor.MsgProcessor.Route | wxbot_project_py2.7/wx_handler/wechat_msg_processor.py:196-239 | after the split, the notice and the dispatch together change the replies, the remark and the commands exactly as the routing effect says |
| Processor.MsgProcessor.SendNotice | wxbot_project_py2.7/wx_handler/wechat_msg_processor.py:204-205 | sends the "not bound" notice exactly when it is due for the sender and the first token |
| Processor.MsgProcessor.Dispatch | wxbot_project_py2.7/wx_handler/wechat_msg_processor.py:207-238 | the `if`/`elif` chain has the effect of the classified branch |
| Processor.MsgProcessor.RenameGroup | wxbot_project_py2.7/wx_handler/wechat_msg_processor.py:147-150 | the loop applies the rename patch to the group list |
| Processor.MsgProcessor.ResolveGroupId | wxbot_project_py2.7/wx_handler/wechat_msg_processor.py:337-340 | the loop computes the id of the last group with the name, or `''` |
| Processor.MsgProcessor.HandleCommand | wxbot_project_py2.7/wx_handler/wechat_msg_processor.py:330-367 | appends exactly the command's message, if any, addressed to the resolved group |
| Processor.MsgProcessor.RecordNotification | wxbot_project_py2.7/wx_handler/wechat_msg_processor.py:117-150 | appends the join and rename rows, and patches the group list, as the two patterns decide |
| Processor.MsgProcessor.HandleMention | wxbot_project_py2.7/wx_handler/wechat_msg_processor.py:179-184 | sends what the extracted command asks for, if any |
| Processor.MsgProcessor.HandleGroupMsg | wxbot_project_py2.7/wx_handler/wechat_msg_processor.py:117-184 | exactly one message-log row per message; notification rows and the group-list patch only for type 10000; a mention is resolved in the patched group list |

## Left out

- `get_host_ip` (socket use) is left out. The host address is an input (`Env.hostIp`).
- `os.system` does not run. The command string is recorded, and its exit status is an input (`Env.exitStatus`).
- File I/O is left out. Opening, reading and closing `ssusers` and `sstraffic` are not modelled; the files' lines are inputs. The newline that `readlines` keeps at each line end is whitespace, so `split()` gives the same tokens with or without it.
- `wechat.get_user_by_id` and `wechat.modify_remark_name` are not part of this model. They are modelled as a lookup in and an update of a remark map, and a sender missing from the map is taken to raise (`Fault.UnknownUser`).
- The client calls `send_text`, `send_img`, `send_file` and `send_emot` are recorded as `Event` values. Their network effects are not modelled.
- `get_run_time()`, the chat bot's reply and `int(time.time())` are inputs (`GroupEnv`).
- Media renaming in `handle_group_msg` (lines 105-115) is left out. It renames files on disk and formats local time; the logged row holds the paths as given.
- `handle_wxsync`, `save_json` and the `Log` calls are left out. They are JSON and log file I/O.
- `clean_db`, `check_schedule_task` and the roster handlers `handle_group_list`, `handle_group_member_list`, `handle_group_list_change` and `handle_group_member_change` are left out. They are database table plumbing and wall-clock checks.
- The database is a sequence of appended rows per table. The database's own failures are not modelled.
- `trans_coding` and UTF-8 encoding are left out: text is a sequence of characters. Splitting and stripping use the six ASCII whitespace characters, as Python 2 byte strings do. A multi-byte UTF-8 sequence never contains those bytes, so the tokens are the same.
- What the caller does with an uncaught exception is not modelled. The model stops at the `Crash` outcome.
- ParseLong: the whitespace that Python's `long()` skips around its argument is not modelled. Its argument is always a `split()` token, so it never contains any.
