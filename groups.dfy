/** The group side of the processor: the client's `GroupList`, the rows
    `handle_group_msg` writes, the `@self` command extraction and the
    in-group commands of `handle_command`. */
module Groups {
  import opened Outcomes
  import opened Tokens

  /** One entry of the client's `GroupList`. */
  datatype Group = Group(userName: string, nickName: string, ownerUin: string, memberCount: int)

  /** A packaged group message, with the fields `handle_group_msg` reads. */
  datatype GroupMsg = GroupMsg(
    msgId: string, groupOwnerUin: string, groupName: string, groupCount: string,
    fromUserName: string, toUserName: string, userAttrStatus: string,
    userDisplayName: string, userNickname: string, msgType: int,
    emoticon: string, text: string, image: string, video: string, voice: string,
    link: string, namecard: string, location: string, recallMsgId: string,
    sysNotif: string, time: string, timestamp: string)

  /** A row of the member-joined table. */
  datatype EnterRow = EnterRow(msgId: string, groupName: string, fromUserName: string,
                               toUserName: string, name: string, time: string)

  /** A row of the group-renamed table. */
  datatype RenameRow = RenameRow(msgId: string, groupName: string, toName: string,
                                 people: string, time: string)

  /** The message type of a system notification. */
  const SysNotification: int := 10000

  // ---------------------------------------------------------------------
  // GroupList lookups

  /** The first entry from `k` on whose `UserName` is `id`. */
  function FirstWithIdFrom(gl: seq<Group>, id: string, k: nat): (r: Option<nat>)
    requires k <= |gl|
    ensures r.Some? ==> k <= r.value < |gl| && gl[r.value].userName == id
    ensures r.Some? ==> forall j :: k <= j < r.value ==> gl[j].userName != id
    ensures r.None? ==> forall j :: k <= j < |gl| ==> gl[j].userName != id
    decreases |gl| - k
  {
    if k == |gl| then None
    else if gl[k].userName == id then Some(k)
    else FirstWithIdFrom(gl, id, k + 1)
  }

  function FirstWithId(gl: seq<Group>, id: string): Option<nat> {
    FirstWithIdFrom(gl, id, 0)
  }

  /** The group list after the rename loop: the first entry whose `UserName`
      is `id` gets `NickName := to`. */
  function RenamedList(gl: seq<Group>, id: string, to: string): (r: seq<Group>)
    ensures |r| == |gl|
    ensures forall j :: 0 <= j < |gl| ==> r[j].userName == gl[j].userName
  {
    match FirstWithId(gl, id)
    case None => gl
    case Some(i) => gl[i := gl[i].(nickName := to)]
  }

  /** The rename patches only the first entry with the id, only its name. */
  lemma RenamedOnlyFirst(gl: seq<Group>, id: string, to: string)
    ensures var r := RenamedList(gl, id, to);
      && |r| == |gl|
      && (forall j :: 0 <= j < |gl| && gl[j].userName != id ==> r[j] == gl[j])
      && (forall j :: 0 <= j < |gl| && gl[j].userName == id ==>
            exists i :: 0 <= i <= j && gl[i].userName == id &&
              r[i] == gl[i].(nickName := to) &&
              forall x :: 0 <= x < |gl| && x != i ==> r[x] == gl[x])
      && ((forall j :: 0 <= j < |gl| ==> gl[j].userName != id) ==> r == gl)
  {
    match FirstWithId(gl, id)
    case None =>
    case Some(i) =>
  }

  /** The last entry whose `NickName` is `name`. */
  function LastWithNick(gl: seq<Group>, name: string): (r: Option<nat>)
    ensures r.Some? ==> r.value < |gl| && gl[r.value].nickName == name
    ensures r.Some? ==> forall j :: r.value < j < |gl| ==> gl[j].nickName != name
    ensures r.None? ==> forall j :: 0 <= j < |gl| ==> gl[j].nickName != name
  {
    if gl == [] then None
    else if gl[|gl| - 1].nickName == name then Some(|gl| - 1)
    else LastWithNick(gl[..|gl| - 1], name)
  }

  /** `g_id` after the loop of `handle_command`: the `UserName` of the last
      entry named `name`, or `''`. */
  function GroupIdFor(gl: seq<Group>, name: string): (r: string)
    ensures r != "" ==> exists j :: 0 <= j < |gl| && gl[j].nickName == name && gl[j].userName == r
  {
    match LastWithNick(gl, name)
    case None => ""
    case Some(i) => gl[i].userName
  }

  /** `g_id` is the id of the last group named `name`, and `''` when no
      group has that name. */
  lemma GroupIdForMeaning(gl: seq<Group>, name: string)
    ensures (forall j :: 0 <= j < |gl| ==> gl[j].nickName != name) ==> GroupIdFor(gl, name) == ""
    ensures forall j ::
      (0 <= j < |gl| && gl[j].nickName == name && (forall k :: j < k < |gl| ==> gl[k].nickName != name))
      ==> GroupIdFor(gl, name) == gl[j].userName
  {
    match LastWithNick(gl, name)
    case None =>
    case Some(i) =>
      forall j | 0 <= j < |gl| && gl[j].nickName == name && (forall k :: j < k < |gl| ==> gl[k].nickName != name)
        ensures j == i
      {
        assert !(i > j) by { assert gl[i].nickName == name; }
      }
  }

  /** A rename followed by a command in a group called by its new name
      resolves to the renamed group, when no later entry has that name. */
  lemma {:induction false} RenameThenResolve(gl: seq<Group>, id: string, to: string, i: nat)
    requires FirstWithId(gl, id) == Some(i)
    requires forall j :: i < j < |gl| ==> gl[j].nickName != to
    ensures GroupIdFor(RenamedList(gl, id, to), to) == id
  {
    var r := RenamedList(gl, id, to);
    assert r[i].nickName == to;
    var k := LastWithNick(r, to);
    assert k.Some? && k.value == i by {
      assert forall j :: i < j < |r| ==> r[j] == gl[j];
    }
  }

  // ---------------------------------------------------------------------
  // `@self` commands

  /** The four-per-em space the client puts after an `@name`. */
  const Sep: char := '\U{2005}'

  /** `text[1:n]` for the index `n` that `find` returned, -1 included. */
  function NameBefore(text: string, n: int): string
    requires -1 <= n < |text|
  {
    if n == -1 then (if |text| >= 2 then text[1..|text| - 1] else "")
    else if n >= 1 then text[1..n] else ""
  }

  /** The command string `handle_group_msg` passes to `handle_command`, if
      any: when the text starts with '@' and the part before the first
      separator names the bot, the part after it. When the text has no
      separator, `find` gives -1: the name is `text[1:-1]` and the command
      is the whole text. */
  function MentionCommand(text: string, nick: string, remark: string): (r: Option<string>)
    ensures r.Some? ==> |text| > 0 && text[0] == '@'
    ensures Sep in text ==> var n := IndexOf(text, Sep);
      && (r.Some? <==> |text| > 0 && text[0] == '@' && (text[1..n] == nick || text[1..n] == remark))
      && (r.Some? ==> r.value == text[n + 1..])
    ensures Sep !in text && r.Some? ==> r.value == text
  {
    if |text| > 0 && text[0] == '@' then
      var n := IndexOf(text, Sep);
      var name := NameBefore(text, n);
      if name == nick || name == remark then Some(text[n + 1..]) else None
    else None
  }

  /** "@<name><U+2005><rest>" with `name` the bot's nickname or remark name
      hands `rest` to `handle_command`. */
  lemma MentionDecomposition(name: string, rest: string, nick: string, remark: string)
    requires Sep !in name
    requires name == nick || name == remark
    ensures MentionCommand("@" + name + [Sep] + rest, nick, remark) == Some(rest)
  {
    var text := "@" + name + [Sep] + rest;
    var p := |name| + 1;
    assert text[p] == Sep;
    assert text[..p] == "@" + name;
    var n := IndexOf(text, Sep);
    assert n == p by {
      forall x | 0 <= x < p ensures text[x] != Sep {
        assert text[x] == ("@" + name)[x];
      }
      forall m | p < m <= |text| ensures Sep in text[..m] {
        assert text[..m][p] == Sep;
      }
    }
    assert text[1..p] == name;
    assert text[p + 1..] == rest;
  }

  /** The file names `test_emot` picks from. */
  const EmotNames: seq<string> :=
    ["0.jpg", "1.jpeg", "2.gif", "3.jpg", "4.jpeg", "5.gif", "6.gif", "7.gif", "8.jpg", "9.jpg"]

  /** What `handle_command` reads from outside: `get_run_time()`, the chat
      bot's reply to "test_bot" (`None` when there is no bot) and
      `int(time.time())`. */
  datatype GroupEnv = GroupEnv(runTime: string, botReply: Option<string>, clock: int)

  /** The message `handle_command` sends for the command `cmd` in the group
      `gid`, if any. */
  function CommandEvent(cmd: string, gid: string, env: GroupEnv): (r: Option<Event>)
    ensures r.Some? ==> r.value.to == gid
    ensures r.Some? ==> Strip(cmd) in ["runtime", "test_sendimg", "test_sendfile", "test_bot", "test_emot"]
    ensures Strip(cmd) == "runtime" ==> r == Some(Text(gid, env.runTime))
    ensures Strip(cmd) == "test_emot" ==>
      r == Some(Emoticon(gid, "test/emotion/" + EmotNames[env.clock % 10]))
  {
    var c := Strip(cmd);
    if c == "runtime" then Some(Text(gid, env.runTime))
    else if c == "test_sendimg" then Some(Image(gid, "test/emotion/7.gif"))
    else if c == "test_sendfile" then Some(File(gid, "test/Data/upload/shake.wav"))
    else if c == "test_bot" then
      match env.botReply
      case Some(r) => if r != "" then Some(Text(gid, r)) else None
      case None => None
    else if c == "test_emot" then Some(Emoticon(gid, "test/emotion/" + EmotNames[env.clock % 10]))
    else None
  }

  /** Each command word sends its own message to the group. */
  lemma GroupCommandEvents(gid: string, env: GroupEnv)
    ensures CommandEvent("runtime", gid, env) == Some(Text(gid, env.runTime))
    ensures CommandEvent("test_sendimg", gid, env) == Some(Image(gid, "test/emotion/7.gif"))
    ensures CommandEvent("test_sendfile", gid, env) == Some(File(gid, "test/Data/upload/shake.wav"))
    ensures CommandEvent("test_bot", gid, env) ==
      if env.botReply.Some? && env.botReply.value != "" then Some(Text(gid, env.botReply.value)) else None
    ensures CommandEvent("test_emot", gid, env) ==
      Some(Emoticon(gid, "test/emotion/" + EmotNames[env.clock % 10]))
  {
    StripTrimmed("runtime");
    StripTrimmed("test_sendimg");
    StripTrimmed("test_sendfile");
    StripTrimmed("test_bot");
    StripTrimmed("test_emot");
  }

  /** A command string that starts with '@' sends nothing. */
  lemma AtCommandSendsNothing(cmd: string, gid: string, env: GroupEnv)
    requires |cmd| > 0 && cmd[0] == '@'
    ensures CommandEvent(cmd, gid, env) == None
  {
    StripFirst(cmd);
    var c := Strip(cmd);
    assert c !in ["runtime", "test_sendimg", "test_sendfile", "test_bot", "test_emot"];
  }

  /** Without a separator the whole text, '@' first, reaches the command
      dispatch, which therefore sends nothing. */
  lemma NoSeparatorSendsNothing(text: string, nick: string, remark: string, gid: string, env: GroupEnv)
    requires Sep !in text
    ensures match MentionCommand(text, nick, remark)
      case None => true
      case Some(c) => CommandEvent(c, gid, env) == None
  {
    match MentionCommand(text, nick, remark)
    case None =>
    case Some(c) => AtCommandSendsNothing(c, gid, env);
  }
}
