/** `WeChatMsgProcessor`: the object that receives the packaged messages of
    the chat client and answers them. Its state is the part of the client it
    reads and writes (the contacts' remark names, the group list and the
    bot's own names), what it has sent, the shell commands it has run and
    the rows it has written to the message database. */
module Processor {
  import opened Outcomes
  import opened Tokens
  import opened Binding
  import opened LineScan
  import opened Personal
  import opened Notifications
  import opened Groups

  /** The remark map after an effect on the sender `uid`. */
  function ApplyRemark(remarks: map<string, string>, uid: string, change: Option<string>): map<string, string> {
    match change
    case None => remarks
    case Some(r) => remarks[uid := r]
  }

  function EventsOf(e: Option<Event>): seq<Event> {
    match e
    case None => []
    case Some(x) => [x]
  }

  /** The member-joined row a group message adds, if any. */
  function EnterRows(msg: GroupMsg): (r: seq<EnterRow>)
    ensures forall row :: row in r ==>
      && row.msgId == msg.msgId && row.groupName == msg.groupName && row.time == msg.time
      && row.fromUserName == msg.fromUserName && row.toUserName == msg.toUserName
  {
    if msg.msgType != SysNotification then []
    else match FindEnter(msg.sysNotif)
      case None => []
      case Some(name) => [EnterRow(msg.msgId, msg.groupName, msg.fromUserName, msg.toUserName, name, msg.time)]
  }

  /** The group-renamed row a group message adds, if any. */
  function RenameRows(msg: GroupMsg): (r: seq<RenameRow>)
    ensures forall row :: row in r ==>
      row.msgId == msg.msgId && row.groupName == msg.groupName && row.time == msg.time
  {
    if msg.msgType != SysNotification then []
    else match FindRename(msg.sysNotif)
      case None => []
      case Some((people, toName)) => [RenameRow(msg.msgId, msg.groupName, toName, people, msg.time)]
  }

  /** The group list after a group message. */
  function ListAfter(gl: seq<Group>, msg: GroupMsg): (r: seq<Group>)
    ensures |r| == |gl| && forall j :: 0 <= j < |gl| ==> r[j].userName == gl[j].userName
  {
    if msg.msgType != SysNotification then gl
    else match FindRename(msg.sysNotif)
      case None => gl
      case Some((_, toName)) => RenamedList(gl, msg.fromUserName, toName)
  }

  /** What a group message sends, given the group list it is resolved in. */
  function MentionEvents(gl: seq<Group>, msg: GroupMsg, nick: string, remark: string, env: GroupEnv): (r: seq<Event>)
    ensures r != [] ==> MentionCommand(msg.text, nick, remark).Some?
  {
    match MentionCommand(msg.text, nick, remark)
    case None => []
    case Some(cmd) => EventsOf(CommandEvent(cmd, GroupIdFor(gl, msg.groupName), env))
  }

  /** One group message adds at most one row to each notification table;
      a message that is not a system notification touches neither table nor
      the group list, and a rename row comes with the patch for its new name. */
  lemma GroupMsgRows(gl: seq<Group>, msg: GroupMsg)
    ensures |EnterRows(msg)| <= 1 && |RenameRows(msg)| <= 1
    ensures |RenameRows(msg)| == 1 ==>
      ListAfter(gl, msg) == RenamedList(gl, msg.fromUserName, RenameRows(msg)[0].toName)
    ensures msg.msgType != SysNotification ==>
      EnterRows(msg) == [] && RenameRows(msg) == [] && ListAfter(gl, msg) == gl
  {
    if msg.msgType == SysNotification {
      match FindRename(msg.sysNotif)
      case None =>
      case Some((_, toName)) =>
        assert RenameRows(msg)[0].toName == toName;
    }
  }

  /** A system notification gets a member-joined row exactly when the join
      pattern matches it, and a group-renamed row, together with the patch of
      the group list, exactly when the rename pattern does. */
  lemma NotificationRowsIff(gl: seq<Group>, msg: GroupMsg)
    requires msg.msgType == SysNotification
    ensures |EnterRows(msg)| == 1 <==> exists a, b :: EnterMatch(msg.sysNotif, a, b)
    ensures |RenameRows(msg)| == 1 <==> exists a, k, m :: RenameMatch(msg.sysNotif, a, k, m)
    ensures RenameRows(msg) == [] ==> ListAfter(gl, msg) == gl
    ensures forall row :: row in EnterRows(msg) ==>
      row.msgId == msg.msgId && row.groupName == msg.groupName && |row.name| > 0 && '\n' !in row.name
  {
  }

  /** A group message sends at most one message, to the group its name
      resolves to, and only when its text starts with '@'. */
  lemma MentionAtMostOne(gl: seq<Group>, msg: GroupMsg, nick: string, remark: string, env: GroupEnv)
    ensures var ev := MentionEvents(gl, msg, nick, remark, env);
      |ev| <= 1 && forall k :: 0 <= k < |ev| ==> ev[k].to == GroupIdFor(gl, msg.groupName)
    ensures !(|msg.text| > 0 && msg.text[0] == '@') ==> MentionEvents(gl, msg, nick, remark, env) == []
  {
    match MentionCommand(msg.text, nick, remark)
    case None =>
      assert MentionEvents(gl, msg, nick, remark, env) == [];
    case Some(cmd) =>
      var gid := GroupIdFor(gl, msg.groupName);
      var e := CommandEvent(cmd, gid, env);
      assert MentionEvents(gl, msg, nick, remark, env) == EventsOf(e);
      if e.Some? {
        assert e.value.to == gid;
      }
  }

  /** The notification "<inviter>邀请<name>加入了群聊" is logged with `name`
      as the new member. */
  lemma JoinLogged(msg: GroupMsg, inviter: string, name: string)
    requires msg.msgType == SysNotification
    requires msg.sysNotif == inviter + Invite + name + Joined
    requires |name| > 0 && '\n' !in name
    requires forall x :: !LitAt(inviter, x, Invite)
    ensures EnterRows(msg) == [EnterRow(msg.msgId, msg.groupName, msg.fromUserName, msg.toUserName, name, msg.time)]
  {
    EnterNotification(inviter, name);
  }

  /** The notification "<actor>修改群名为“<newName>”" from group `id` is
      logged with the actor and the new name, and afterwards a command in the
      group called `newName` resolves to `id`, unless a later entry of the
      list already bore that name. */
  lemma RenameLoggedAndResolved(gl: seq<Group>, msg: GroupMsg, actor: string, newName: string, i: nat)
    requires msg.msgType == SysNotification
    requires msg.sysNotif == actor + Renamed + newName + CloseQuote
    requires |actor| > 0 && '\n' !in actor && |newName| > 0 && '\n' !in newName && '“' !in newName
    requires FirstWithId(gl, msg.fromUserName) == Some(i)
    requires forall j :: i < j < |gl| ==> gl[j].nickName != newName
    ensures RenameRows(msg) == [RenameRow(msg.msgId, msg.groupName, newName, actor, msg.time)]
    ensures GroupIdFor(ListAfter(gl, msg), newName) == msg.fromUserName
  {
    RenameNotification(actor, newName);
    RenameThenResolve(gl, msg.fromUserName, newName, i);
  }

  /** "@<bot name><U+2005>runtime" in a group answers with the run time, sent
      to the group the message's group name resolves to. */
  lemma RuntimeMention(gl: seq<Group>, msg: GroupMsg, name: string, nick: string, remark: string, env: GroupEnv)
    requires Sep !in name && (name == nick || name == remark)
    requires msg.text == "@" + name + [Sep] + "runtime"
    ensures MentionEvents(gl, msg, nick, remark, env) == [Text(GroupIdFor(gl, msg.groupName), env.runTime)]
  {
    MentionDecomposition(name, "runtime", nick, remark);
    GroupCommandEvents(GroupIdFor(gl, msg.groupName), env);
  }

  class MsgProcessor {
    /** `RemarkName` of every contact the client knows, by `UserName`. */
    var remarks: map<string, string>
    /** `wechat.GroupList`. */
    var groupList: seq<Group>
    /** `wechat.User['NickName']` and `wechat.User['RemarkName']`. */
    const selfNick: string
    const selfRemark: string
    /** Every call into the client's send API, in order. */
    var sent: seq<Event>
    /** Every command passed to `os.system`, in order. */
    var commands: seq<string>
    /** The tables `group_msg_log`, `record_enter_group` and `record_rename_group`. */
    var msgLog: seq<GroupMsg>
    var enterLog: seq<EnterRow>
    var renameLog: seq<RenameRow>

    constructor (remarks0: map<string, string>, groups0: seq<Group>, nick: string, remark: string)
      ensures remarks == remarks0 && groupList == groups0
      ensures selfNick == nick && selfRemark == remark
      ensures sent == [] && commands == [] && msgLog == [] && enterLog == [] && renameLog == []
    {
      remarks := remarks0;
      groupList := groups0;
      selfNick := nick;
      selfRemark := remark;
      sent := [];
      commands := [];
      msgLog := [];
      enterLog := [];
      renameLog := [];
    }

    // -------------------------------------------------------------------
    // Personal messages

    /** `is_registered`. */
    method QueryRegistered(uid: string) returns (b: bool)
      requires uid in remarks
      ensures b == IsRegistered(remarks[uid])
    {
      var names := Split(remarks[uid]);
      b := |names| > 1 && names[0] == Tag;
    }

    /** `get_port`: the second token of the remark; `None` where `names[1]`
        raises. */
    method QueryPort(uid: string) returns (port: Option<string>)
      requires uid in remarks
      ensures port == PortOf(remarks[uid])
    {
      var names := Split(remarks[uid]);
      if |names| > 1 {
        port := Some(names[1]);
      } else {
        port := None;
      }
    }

    /** `handle_registration` with `users` the lines of `ssusers`. */
    method HandleRegistration(uid: string, port: string, password: string, users: seq<string>) returns (out: Outcome)
      modifies this`remarks, this`sent
      ensures var e := RegistrationEffect(uid, users, port, password);
        out == e.outcome && sent == old(sent) + e.sent && remarks == ApplyRemark(old(remarks), uid, e.remark)
    {
      var r := ScanLines(users, Credential(port, password));
      match r
      case Found(_) =>
        remarks := remarks[uid := Tag + " " + port];
        sent := sent + [Text(uid, BindOk)];
        out := Done;
      case NotFound =>
        sent := sent + [Text(uid, BindRejected)];
        out := Done;
      case Failed(_, f) =>
        out := Crash(f);
    }

    /** `handle_unregistration`. */
    method HandleUnregistration(uid: string)
      modifies this`remarks, this`sent
      ensures var e := UnregistrationEffect(uid);
        sent == old(sent) + e.sent && remarks == ApplyRemark(old(remarks), uid, e.remark)
    {
      remarks := remarks[uid := ""];
      sent := sent + [Text(uid, UnbindOk)];
    }

    /** `handle_change_password`; `exitStatus` is what `os.system` returns. */
    method HandleChangePassword(uid: string, password: string, exitStatus: int) returns (out: Outcome)
      requires uid in remarks
      modifies this`sent, this`commands
      ensures var e := ChangePasswordEffect(uid, old(remarks)[uid], password, exitStatus);
        out == e.outcome && sent == old(sent) + e.sent && commands == old(commands) + e.commands
    {
      var port := QueryPort(uid);
      if port.None? {
        return Crash(NoPort);
      }
      var n := ParseLong(port.value);
      if n.None? {
        return Crash(NonNumericPort);
      }
      if n.value < MinChangeablePort {
        sent := sent + [Text(uid, PasswordUnsupported)];
        return Done;
      }
      var command := "/home/ss-bash-master/ssadmin.sh cpw " + port.value + " " + password;
      commands := commands + [command];
      if exitStatus == 0 {
        sent := sent + [Text(uid, PasswordChanged + password)];
      } else {
        sent := sent + [Text(uid, PasswordFailed)];
      }
      out := Done;
    }

    /** `handle_user_info_check`, with `users` the lines of `ssusers` and
        `hostIp` what `get_host_ip` returns. */
    method HandleUserInfoCheck(uid: string, users: seq<string>, hostIp: string) returns (out: Outcome)
      requires uid in remarks
      modifies this`sent
      ensures var e := InfoEffect(uid, old(remarks)[uid], users, hostIp);
        out == e.outcome && sent == old(sent) + e.sent
    {
      var port := QueryPort(uid);
      if port.None? {
        return Crash(NoPort);
      }
      var r := ScanLines(users, Lookup(port.value, 1));
      match r
      case Found(i) =>
        var elements := Split(users[i]);
        sent := sent + [Text(uid, "IP：" + hostIp + "\n端口：" + port.value + "\n密码：" + elements[1])];
        out := Done;
      case NotFound =>
        out := Done;
      case Failed(_, f) =>
        out := Crash(f);
    }

    /** `handle_traffic_check`, with `traffic` the lines of `sstraffic`. */
    method HandleTrafficCheck(uid: string, traffic: seq<string>) returns (out: Outcome)
      requires uid in remarks
      modifies this`sent
      ensures var e := TrafficEffect(uid, old(remarks)[uid], traffic);
        out == e.outcome && sent == old(sent) + e.sent
    {
      var port := QueryPort(uid);
      if port.None? {
        return Crash(NoPort);
      }
      var r := ScanLines(traffic, Lookup(port.value, 3));
      match r
      case Found(i) =>
        var elements := Split(traffic[i]);
        sent := sent + [Text(uid, "总量：" + elements[1] + "\n已用：" + elements[2] + "\n剩余：" + elements[3])];
        out := Done;
      case NotFound =>
        out := Done;
      case Failed(_, f) =>
        out := Crash(f);
    }

    /** `handle_user_msg`: a sender the client does not know makes
        `get_user_by_id` raise. */
    method HandleUserMsg(uid: string, text: string, env: Env) returns (out: Outcome)
      modifies this`remarks, this`sent, this`commands
      ensures uid !in old(remarks) ==>
        out == Crash(UnknownUser) && sent == old(sent) && remarks == old(remarks) && commands == old(commands)
      ensures uid in old(remarks) ==> var e := UserMsgEffect(uid, old(remarks)[uid], text, env);
        && out == e.outcome
        && sent == old(sent) + e.sent
        && remarks == ApplyRemark(old(remarks), uid, e.remark)
        && commands == old(commands) + e.commands
    {
      if uid !in remarks {
        return Crash(UnknownUser);
      }
      var registered := QueryRegistered(uid);
      var cmd := Split(text);
      if cmd == [] {
        return Crash(EmptyCommand);
      }
      out := Route(uid, cmd, registered, env);
    }

    /** The part of `handle_user_msg` after the command is split: the notice,
        then the dispatch. */
    method Route(uid: string, cmd: seq<string>, registered: bool, env: Env) returns (out: Outcome)
      requires uid in remarks && |cmd| > 0
      requires registered == IsRegistered(remarks[uid])
      modifies this`remarks, this`sent, this`commands
      ensures var e := RouteEffect(uid, old(remarks)[uid], cmd, env);
        && out == e.outcome
        && sent == old(sent) + e.sent
        && remarks == ApplyRemark(old(remarks), uid, e.remark)
        && commands == old(commands) + e.commands
    {
      SendNotice(uid, cmd, registered);
      out := Dispatch(uid, cmd, registered, env);
    }

    /** The "not bound" notice that precedes the dispatch. */
    method SendNotice(uid: string, cmd: seq<string>, registered: bool)
      requires uid in remarks && |cmd| > 0
      requires registered == IsRegistered(remarks[uid])
      modifies this`sent
      ensures sent == old(sent) + (if NeedsNotice(remarks[uid], cmd) then [Text(uid, NoticeUnbound)] else [])
    {
      if cmd[0] in BindingRequired && !registered {
        sent := sent + [Text(uid, NoticeUnbound)];
      }
    }

    /** The `if`/`elif` chain of `handle_user_msg` on the first token. */
    method Dispatch(uid: string, cmd: seq<string>, registered: bool, env: Env) returns (out: Outcome)
      requires uid in remarks && |cmd| > 0
      requires registered == IsRegistered(remarks[uid])
      modifies this`remarks, this`sent, this`commands
      ensures var e := DispatchEffect(uid, old(remarks)[uid], Classify(cmd), env);
        && out == e.outcome
        && sent == old(sent) + e.sent
        && remarks == ApplyRemark(old(remarks), uid, e.remark)
        && commands == old(commands) + e.commands
    {
      if cmd[0] == "1" {
        sent := sent + [Text(uid, if registered then AlreadyBound else BindHelp)];
        out := Done;
      } else if cmd[0] == "2" {
        out := HandleTrafficCheck(uid, env.traffic);
      } else if cmd[0] == "3" {
        sent := sent + [Text(uid, ResetDay)];
        out := Done;
      } else if cmd[0] == "4" {
        out := HandleUserInfoCheck(uid, env.users, env.hostIp);
      } else if cmd[0] == "5" {
        sent := sent + [Text(uid, PasswordHelp)];
        out := Done;
      } else if cmd[0] == "6" {
        sent := sent + [Text(uid, Pending)];
        out := Done;
      } else if cmd[0] == CmdBind && |cmd| >= 3 {
        out := HandleRegistration(uid, cmd[1], cmd[2], env.users);
      } else if cmd[0] == CmdUnbind {
        HandleUnregistration(uid);
        out := Done;
      } else if cmd[0] == CmdChangePassword && |cmd| >= 2 {
        out := HandleChangePassword(uid, cmd[1], env.exitStatus);
      } else {
        sent := sent + [Text(uid, Menu)];
        out := Done;
      }
    }

    // -------------------------------------------------------------------
    // Group messages

    /** The loop over `GroupList` after a rename notification. */
    method RenameGroup(id: string, to: string)
      modifies this`groupList
      ensures groupList == RenamedList(old(groupList), id, to)
    {
      var i := 0;
      while i < |groupList|
        invariant 0 <= i <= |groupList|
        invariant groupList == old(groupList)
        invariant FirstWithIdFrom(groupList, id, i) == FirstWithId(groupList, id)
      {
        if groupList[i].userName == id {
          groupList := groupList[i := groupList[i].(nickName := to)];
          return;
        }
        i := i + 1;
      }
    }

    /** The loop of `handle_command` that finds `g_id`. */
    method ResolveGroupId(name: string) returns (gid: string)
      ensures gid == GroupIdFor(groupList, name)
    {
      gid := "";
      var i := 0;
      while i < |groupList|
        invariant 0 <= i <= |groupList|
        invariant gid == GroupIdFor(groupList[..i], name)
      {
        assert groupList[..i + 1][..i] == groupList[..i];
        if groupList[i].nickName == name {
          gid := groupList[i].userName;
        }
        i := i + 1;
      }
      assert groupList[..i] == groupList;
    }

    /** `handle_command` for a message of the group named `groupName`. */
    method HandleCommand(cmd: string, groupName: string, env: GroupEnv)
      modifies this`sent
      ensures sent == old(sent) + EventsOf(CommandEvent(cmd, GroupIdFor(groupList, groupName), env))
    {
      var gid := ResolveGroupId(groupName);
      var c := Strip(cmd);
      if c == "runtime" {
        sent := sent + [Text(gid, env.runTime)];
      } else if c == "test_sendimg" {
        sent := sent + [Image(gid, "test/emotion/7.gif")];
      } else if c == "test_sendfile" {
        sent := sent + [File(gid, "test/Data/upload/shake.wav")];
      } else if c == "test_bot" {
        if env.botReply.Some? && env.botReply.value != "" {
          sent := sent + [Text(gid, env.botReply.value)];
        }
      } else if c == "test_emot" {
        var name := EmotNames[env.clock % 10];
        sent := sent + [Emoticon(gid, "test/emotion/" + name)];
      }
    }

    /** The system-notification part of `handle_group_msg`. */
    method RecordNotification(msg: GroupMsg)
      requires msg.msgType == SysNotification
      modifies this`groupList, this`enterLog, this`renameLog
      ensures enterLog == old(enterLog) + EnterRows(msg)
      ensures renameLog == old(renameLog) + RenameRows(msg)
      ensures groupList == ListAfter(old(groupList), msg)
    {
      var m := FindEnter(msg.sysNotif);
      if m.Some? {
        enterLog := enterLog + [EnterRow(msg.msgId, msg.groupName, msg.fromUserName, msg.toUserName, m.value, msg.time)];
      }
      var n := FindRename(msg.sysNotif);
      if n.Some? {
        var (people, toName) := n.value;
        renameLog := renameLog + [RenameRow(msg.msgId, msg.groupName, toName, people, msg.time)];
        RenameGroup(msg.fromUserName, toName);
      }
    }

    /** The `@self` part of `handle_group_msg`. */
    method HandleMention(msg: GroupMsg, env: GroupEnv)
      modifies this`sent
      ensures sent == old(sent) + MentionEvents(groupList, msg, selfNick, selfRemark, env)
    {
      var text := msg.text;
      if |text| > 0 && text[0] == '@' {
        var n := IndexOf(text, Sep);
        var name := NameBefore(text, n);
        if name == selfNick || name == selfRemark {
          assert MentionCommand(text, selfNick, selfRemark) == Some(text[n + 1..]);
          HandleCommand(text[n + 1..], msg.groupName, env);
        } else {
          assert MentionCommand(text, selfNick, selfRemark) == None;
        }
      }
    }

    /** `handle_group_msg`. */
    method HandleGroupMsg(msg: GroupMsg, env: GroupEnv)
      modifies this`groupList, this`sent, this`msgLog, this`enterLog, this`renameLog
      ensures msgLog == old(msgLog) + [msg]
      ensures enterLog == old(enterLog) + EnterRows(msg)
      ensures renameLog == old(renameLog) + RenameRows(msg)
      ensures groupList == ListAfter(old(groupList), msg)
      ensures sent == old(sent) + MentionEvents(groupList, msg, selfNick, selfRemark, env)
    {
      if msg.msgType == SysNotification {
        RecordNotification(msg);
      }
      msgLog := msgLog + [msg];
      HandleMention(msg, env);
    }
  }
}
