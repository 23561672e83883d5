/** The personal-message side of the processor: `handle_user_msg`, which
    classifies a message by its first token, and the account handlers it
    dispatches to. Each handler's effect is given here as a function of the
    sender's remark, the flat files and the external results; the class in
    `Processor` carries these effects out and the lemmas below state what
    the source promises about them. */
module Personal {
  import opened Outcomes
  import opened Tokens
  import opened Binding
  import opened LineScan

  // ---------------------------------------------------------------------
  // Command words and reply texts

  const CmdBind: string := "绑定"
  const CmdUnbind: string := "解除绑定"
  const CmdChangePassword: string := "改密码"

  /** The first tokens for which an unbound sender gets the notice first. */
  const BindingRequired: seq<string> := ["2", "4", "5", CmdUnbind, CmdChangePassword]

  /** Every first token with a branch of its own in the dispatch. */
  const CommandWords: seq<string> := ["1", "2", "3", "4", "5", "6", CmdBind, CmdUnbind, CmdChangePassword]

  const NoticeUnbound: string := "未绑定，请先绑定用户"
  const AlreadyBound: string := "已绑定,请回复 \"解除绑定\" 进行解绑"
  const BindHelp: string := "请按此格式回复绑定用户：\n绑定 [端口号] [密码]" + "\n\n示例：\n绑定 2018 password"
  const ResetDay: string := "每月10日重置流量"
  const PasswordHelp: string := "请按此格式回复更改密码：\n改密码 [密码]" + "\n\n示例：\n改密码 password"
  const Pending: string := "To be completed..."
  const Menu: string :=
    "请回复数字：" + "\n1. 绑定/解绑用户" + "\n2. 查询剩余流量" + "\n3. 查询流量重置日期"
    + "\n4. 查询我的IP、端口号和密码" + "\n5. 更改密码" + "\n6. 查询其他"
  const BindOk: string := "绑定成功"
  const BindRejected: string := "端口或密码错误"
  const UnbindOk: string := "解绑成功"
  const PasswordUnsupported: string := "该账号不支持修改密码"
  const PasswordChanged: string := "修改成功，新密码是："
  const PasswordFailed: string := "修改失败"

  /** Ports below this cannot change their password. */
  const MinChangeablePort: int := 20000

  function TrafficText(total: string, used: string, remaining: string): string {
    "总量：" + total + "\n已用：" + used + "\n剩余：" + remaining
  }

  function InfoText(ip: string, port: string, password: string): string {
    "IP：" + ip + "\n端口：" + port + "\n密码：" + password
  }

  /** The shell command run by `os.system` to change a password. */
  function ChangePasswordCommand(port: string, password: string): string {
    "/home/ss-bash-master/ssadmin.sh cpw " + port + " " + password
  }

  // ---------------------------------------------------------------------
  // Inputs and effects

  /** What the handlers read from outside: the lines of `ssusers` and
      `sstraffic`, the host's outbound IPv4 address (`get_host_ip`) and the
      status `os.system` returns for the password command. */
  datatype Env = Env(users: seq<string>, traffic: seq<string>, hostIp: string, exitStatus: int)

  /** What handling one message does: how it ends, the messages sent (in
      order), the sender's new remark if `modify_remark_name` was called,
      and the shell commands run. */
  datatype Effect = Effect(outcome: Outcome, sent: seq<Event>, remark: Option<string>, commands: seq<string>)

  function Reply(uid: string, text: string): Effect {
    Effect(Done, [Text(uid, text)], None, [])
  }

  const Silent: Effect := Effect(Done, [], None, [])

  function Abort(f: Fault): Effect {
    Effect(Crash(f), [], None, [])
  }

  /** The remark after an effect. */
  function RemarkAfter(remark: string, e: Effect): string {
    match e.remark
    case Some(r) => r
    case None => remark
  }

  // ---------------------------------------------------------------------
  // Handlers

  /** `handle_registration`: the first non-comment line of `ssusers` whose
      first two tokens are the port and the password binds the sender. */
  function RegistrationEffect(uid: string, users: seq<string>, port: string, password: string): (e: Effect)
    ensures e.commands == [] && |e.sent| <= 1
    ensures e.remark.Some? <==> Scan(users, Credential(port, password)).Found?
    ensures e.remark.Some? ==> e.remark == Some(BoundRemark(port)) && e.sent == [Text(uid, BindOk)]
    ensures e.outcome.Crash? <==> Scan(users, Credential(port, password)).Failed?
    ensures e.outcome.Crash? ==> e.sent == []
  {
    match Scan(users, Credential(port, password))
    case Found(_) => Effect(Done, [Text(uid, BindOk)], Some(BoundRemark(port)), [])
    case NotFound => Reply(uid, BindRejected)
    case Failed(_, f) => Abort(f)
  }

  /** `handle_unregistration`. */
  function UnregistrationEffect(uid: string): (e: Effect)
    ensures e.outcome == Done && e.commands == []
    ensures e.remark.Some? && !IsRegistered(e.remark.value) && PortOf(e.remark.value) == None
  {
    Effect(Done, [Text(uid, UnbindOk)], Some(UnboundRemark), [])
  }

  /** `handle_change_password`. */
  function ChangePasswordEffect(uid: string, remark: string, password: string, exitStatus: int): (e: Effect)
    ensures e.remark == None && |e.sent| <= 1 && |e.commands| <= 1
    ensures PortOf(remark).None? ==> e == Abort(NoPort)
    ensures e.outcome.Done? <==> PortOf(remark).Some? && ParseLong(PortOf(remark).value).Some?
    ensures e.commands != [] ==>
      && PortOf(remark).Some? && ParseLong(PortOf(remark).value).Some?
      && ParseLong(PortOf(remark).value).value >= MinChangeablePort
      && e.commands == [ChangePasswordCommand(PortOf(remark).value, password)]
  {
    match PortOf(remark)
    case None => Abort(NoPort)
    case Some(port) =>
      match ParseLong(port)
      case None => Abort(NonNumericPort)
      case Some(n) =>
        if n < MinChangeablePort then Reply(uid, PasswordUnsupported)
        else
          var text := if exitStatus == 0 then PasswordChanged + password else PasswordFailed;
          Effect(Done, [Text(uid, text)], None, [ChangePasswordCommand(port, password)])
  }

  /** `handle_traffic_check`: fields 1 to 3 of the first non-comment line of
      `sstraffic` for the port that has more than three fields. */
  function TrafficEffect(uid: string, remark: string, traffic: seq<string>): (e: Effect)
    ensures e.remark == None && e.commands == [] && |e.sent| <= 1
    ensures PortOf(remark).None? ==> e == Abort(NoPort)
    ensures e.sent != [] ==> Scan(traffic, Lookup(PortOf(remark).value, 3)).Found?
  {
    match PortOf(remark)
    case None => Abort(NoPort)
    case Some(port) =>
      match Scan(traffic, Lookup(port, 3))
      case Found(i) =>
        var t := Split(traffic[i]);
        Reply(uid, TrafficText(t[1], t[2], t[3]))
      case NotFound => Silent
      case Failed(_, f) => Abort(f)
  }

  /** `handle_user_info_check`: the password is field 1 of the first
      non-comment line of `ssusers` for the port with more than one field. */
  function InfoEffect(uid: string, remark: string, users: seq<string>, hostIp: string): (e: Effect)
    ensures e.remark == None && e.commands == [] && |e.sent| <= 1
    ensures PortOf(remark).None? ==> e == Abort(NoPort)
    ensures e.sent != [] ==> Scan(users, Lookup(PortOf(remark).value, 1)).Found?
  {
    match PortOf(remark)
    case None => Abort(NoPort)
    case Some(port) =>
      match Scan(users, Lookup(port, 1))
      case Found(i) => Reply(uid, InfoText(hostIp, port, Split(users[i])[1]))
      case NotFound => Silent
      case Failed(_, f) => Abort(f)
  }

  // ---------------------------------------------------------------------
  // The router

  /** The branches of the dispatch in `handle_user_msg`. */
  datatype Command =
    | BindHint | Traffic | ResetInfo | Info | PasswordHint | Other
    | Bind(port: string, password: string)
    | Unbind
    | ChangePassword(password: string)
    | ShowMenu

  /** The `if`/`elif` chain on the first token. */
  function Classify(cmd: seq<string>): (c: Command)
    requires |cmd| > 0
    ensures c == BindHint <==> cmd[0] == "1"
    ensures c == Traffic <==> cmd[0] == "2"
    ensures c == ResetInfo <==> cmd[0] == "3"
    ensures c == Info <==> cmd[0] == "4"
    ensures c == PasswordHint <==> cmd[0] == "5"
    ensures c == Other <==> cmd[0] == "6"
    ensures c.Bind? <==> cmd[0] == CmdBind && |cmd| >= 3
    ensures c.Bind? ==> c.port == cmd[1] && c.password == cmd[2]
    ensures c.ChangePassword? <==> cmd[0] == CmdChangePassword && |cmd| >= 2
    ensures c.ChangePassword? ==> c.password == cmd[1]
    ensures c.Unbind? <==> cmd[0] == CmdUnbind
    ensures c == ShowMenu <==>
      cmd[0] !in CommandWords || (cmd[0] == CmdBind && |cmd| < 3) || (cmd[0] == CmdChangePassword && |cmd| < 2)
  {
    var w := cmd[0];
    if w == "1" then BindHint
    else if w == "2" then Traffic
    else if w == "3" then ResetInfo
    else if w == "4" then Info
    else if w == "5" then PasswordHint
    else if w == "6" then Other
    else if w == CmdBind && |cmd| >= 3 then Bind(cmd[1], cmd[2])
    else if w == CmdUnbind then Unbind
    else if w == CmdChangePassword && |cmd| >= 2 then ChangePassword(cmd[1])
    else ShowMenu
  }

  /** The effect of the branch `c` for a sender whose remark is `remark`. */
  function DispatchEffect(uid: string, remark: string, c: Command, env: Env): (e: Effect)
    ensures |e.sent| <= 1 && |e.commands| <= 1
    ensures e.remark.Some? ==> c.Bind? || c.Unbind?
    ensures e.commands != [] ==> c.ChangePassword?
    ensures e.outcome.Crash? ==> e.sent == [] && (c.Bind? || c.Traffic? || c.Info? || c.ChangePassword?)
  {
    match c
    case BindHint => Reply(uid, if IsRegistered(remark) then AlreadyBound else BindHelp)
    case Traffic => TrafficEffect(uid, remark, env.traffic)
    case ResetInfo => Reply(uid, ResetDay)
    case Info => InfoEffect(uid, remark, env.users, env.hostIp)
    case PasswordHint => Reply(uid, PasswordHelp)
    case Other => Reply(uid, Pending)
    case Bind(port, password) => RegistrationEffect(uid, env.users, port, password)
    case Unbind => UnregistrationEffect(uid)
    case ChangePassword(password) => ChangePasswordEffect(uid, remark, password, env.exitStatus)
    case ShowMenu => Reply(uid, Menu)
  }

  /** Whether the "not bound" notice goes out before the dispatch. */
  predicate NeedsNotice(remark: string, cmd: seq<string>)
    requires |cmd| > 0
    ensures NeedsNotice(remark, cmd) ==> cmd[0] in CommandWords && Decode(remark) == Unbound
  {
    cmd[0] in BindingRequired && !IsRegistered(remark)
  }

  /** The notice, when due, followed by the branch for the tokens `cmd`. */
  function RouteEffect(uid: string, remark: string, cmd: seq<string>, env: Env): (e: Effect)
    requires |cmd| > 0
    ensures |e.sent| <= 2 && |e.commands| <= 1
  {
    var notice := if NeedsNotice(remark, cmd) then [Text(uid, NoticeUnbound)] else [];
    var e := DispatchEffect(uid, remark, Classify(cmd), env);
    e.(sent := notice + e.sent)
  }

  /** `handle_user_msg` for a sender whose remark is `remark`. */
  function UserMsgEffect(uid: string, remark: string, text: string, env: Env): (e: Effect)
    ensures |e.sent| <= 2 && |e.commands| <= 1
  {
    var cmd := Split(text);
    if cmd == [] then Abort(EmptyCommand) else RouteEffect(uid, remark, cmd, env)
  }

  // ---------------------------------------------------------------------
  // Binding

  /** When the credential file has no line that makes the scan raise, the
      sender is bound exactly when some non-comment line has the port and
      the password as its first two tokens; the single reply says which. */
  lemma {:induction false} RegistrationIffListed(uid: string, users: seq<string>, port: string, password: string)
    requires Clean(users, Credential(port, password))
    ensures var e := RegistrationEffect(uid, users, port, password);
      && e.outcome == Done
      && e.commands == []
      && (Listed(users, Credential(port, password)) ==>
            e.remark == Some(BoundRemark(port)) && e.sent == [Text(uid, BindOk)])
      && (!Listed(users, Credential(port, password)) ==>
            e.remark == None && e.sent == [Text(uid, BindRejected)])
  {
    CleanScan(users, Credential(port, password));
  }

  /** A successful binding to a port token leaves the sender registered,
      with `get_port` giving the port back. */
  lemma {:induction false} RegistrationRegisters(uid: string, remark: string, users: seq<string>, port: string, password: string)
    requires IsToken(port)
    requires Scan(users, Credential(port, password)).Found?
    ensures var after := RemarkAfter(remark, RegistrationEffect(uid, users, port, password));
      && after == Encode(Bound(port))
      && Decode(after) == Bound(port)
      && IsRegistered(after) && PortOf(after) == Some(port)
  {
    BindRegisters(port);
    DecodeEncode(Bound(port));
  }

  /** A failed binding leaves the remark as it was. */
  lemma {:induction false} RegistrationFailureKeepsRemark(uid: string, remark: string, users: seq<string>, port: string, password: string)
    requires !Scan(users, Credential(port, password)).Found?
    ensures RegistrationEffect(uid, users, port, password).remark == None
    ensures RemarkAfter(remark, RegistrationEffect(uid, users, port, password)) == remark
  {
  }

  /** Unbinding clears the remark from any prior state. */
  lemma UnbindingClears(uid: string, remark: string)
    ensures var after := RemarkAfter(remark, UnregistrationEffect(uid));
      && after == Encode(Unbound)
      && Decode(after) == Unbound
      && !IsRegistered(after)
      && PortOf(after) == None
      && UnregistrationEffect(uid).sent == [Text(uid, UnbindOk)]
  {
    UnbindUnregisters();
  }

  /** A successful binding followed by unbinding passes through the bound
      state and ends unbound with no port: the handlers are inverse on the
      binding state. */
  lemma {:induction false} BindThenUnbind(uid: string, remark: string, users: seq<string>, port: string, password: string)
    requires IsToken(port)
    requires Scan(users, Credential(port, password)).Found?
    ensures var bound := RemarkAfter(remark, RegistrationEffect(uid, users, port, password));
      var after := RemarkAfter(bound, UnregistrationEffect(uid));
      && Decode(bound) == Bound(port)
      && Decode(after) == Unbound
      && PortOf(after) == None
  {
    RegistrationRegisters(uid, remark, users, port, password);
    UnbindingClears(uid, remark);
  }

  // ---------------------------------------------------------------------
  // Changing the password

  /** A port below 20000 gets the "not supported" reply and no command runs;
      any other number runs the command once and the reply reports success
      exactly when it exited with status 0. The remark never changes. */
  lemma ChangePasswordGate(uid: string, remark: string, password: string, exitStatus: int, port: string, n: int)
    requires PortOf(remark) == Some(port) && ParseLong(port) == Some(n)
    ensures var e := ChangePasswordEffect(uid, remark, password, exitStatus);
      && e.outcome == Done
      && e.remark == None
      && (n < MinChangeablePort ==> e.commands == [] && e.sent == [Text(uid, PasswordUnsupported)])
      && (n >= MinChangeablePort ==>
            && e.commands == [ChangePasswordCommand(port, password)]
            && (e.sent == [Text(uid, PasswordChanged + password)] <==> exitStatus == 0)
            && (e.sent == [Text(uid, PasswordFailed)] <==> exitStatus != 0))
  {
    assert PasswordChanged + password != PasswordFailed by {
      assert (PasswordChanged + password)[0] == PasswordChanged[0];
    }
  }

  /** For a sender bound to the decimal port `n` by a successful binding:
      no shell command runs when `n < 20000`, one runs otherwise. */
  lemma {:induction false} ChangePasswordAfterBind(uid: string, n: nat, password: string, exitStatus: int)
    ensures var e := ChangePasswordEffect(uid, BoundRemark(Decimal(n)), password, exitStatus);
      && e.outcome == Done
      && e.remark == None
      && (e.commands == [] <==> n < MinChangeablePort)
      && (n >= MinChangeablePort ==> e.commands == [ChangePasswordCommand(Decimal(n), password)])
  {
    DecimalIsToken(n);
    BindRegisters(Decimal(n));
    ParseLongDecimal(n);
  }

  /** A remark without a port, or with a port that is not a number, makes
      the handler raise before anything is sent or run. */
  lemma ChangePasswordFaults(uid: string, remark: string, password: string, exitStatus: int)
    ensures var e := ChangePasswordEffect(uid, remark, password, exitStatus);
      && (PortOf(remark).None? ==> e == Abort(NoPort))
      && (PortOf(remark).Some? && ParseLong(PortOf(remark).value).None? ==> e == Abort(NonNumericPort))
      && e.remark == None
  {
  }

  // ---------------------------------------------------------------------
  // Traffic and account lookups

  /** The traffic query sends at most one message, fields 1 to 3 of the
      first deciding line, which is a line for the port with more than three
      fields after only skipped lines; with a clean file and no such line it
      sends nothing. */
  lemma {:induction false} TrafficReply(uid: string, remark: string, traffic: seq<string>, port: string)
    requires PortOf(remark) == Some(port)
    ensures var e := TrafficEffect(uid, remark, traffic);
      && e.remark == None && e.commands == [] && |e.sent| <= 1
      && (|e.sent| == 1 ==>
            exists i :: (0 <= i < |traffic| && Scan(traffic, Lookup(port, 3)) == Found(i) &&
              var t := Split(traffic[i]);
              |t| > 3 && t[0] == port && e.sent[0] == Text(uid, TrafficText(t[1], t[2], t[3]))))
      && (Scan(traffic, Lookup(port, 3)).Found? ==> e.outcome == Done && |e.sent| == 1)
      && (Clean(traffic, Lookup(port, 3)) ==>
            e.outcome == Done && (e.sent == [] <==> !Listed(traffic, Lookup(port, 3))))
  {
    var r := Scan(traffic, Lookup(port, 3));
    if Clean(traffic, Lookup(port, 3)) {
      CleanScan(traffic, Lookup(port, 3));
    }
    if r.Found? {
      assert Matches(Lookup(port, 3), Split(traffic[r.index]));
    }
  }

  /** The loop breaks at the line it answers from, so lines after it, blank
      ones included, do not change the traffic reply. */
  lemma {:induction false} TrafficIgnoresLaterLines(uid: string, remark: string, traffic: seq<string>, more: seq<string>, port: string)
    requires PortOf(remark) == Some(port)
    requires Scan(traffic, Lookup(port, 3)).Found?
    ensures TrafficEffect(uid, remark, traffic + more) == TrafficEffect(uid, remark, traffic)
  {
    ScanFromAppend(traffic, more, Lookup(port, 3), 0);
    var i := Scan(traffic, Lookup(port, 3)).index;
    assert (traffic + more)[i] == traffic[i];
  }

  /** The account query sends at most one message, with the host address, the
      port and field 1 of the first deciding line as the password. */
  lemma {:induction false} InfoReply(uid: string, remark: string, users: seq<string>, hostIp: string, port: string)
    requires PortOf(remark) == Some(port)
    ensures var e := InfoEffect(uid, remark, users, hostIp);
      && e.remark == None && e.commands == [] && |e.sent| <= 1
      && (|e.sent| == 1 ==>
            exists i :: (0 <= i < |users| && Scan(users, Lookup(port, 1)) == Found(i) &&
              var t := Split(users[i]);
              |t| > 1 && t[0] == port && e.sent[0] == Text(uid, InfoText(hostIp, port, t[1]))))
      && (Scan(users, Lookup(port, 1)).Found? ==> e.outcome == Done && |e.sent| == 1)
      && (Clean(users, Lookup(port, 1)) ==>
            e.outcome == Done && (e.sent == [] <==> !Listed(users, Lookup(port, 1))))
  {
    var r := Scan(users, Lookup(port, 1));
    if Clean(users, Lookup(port, 1)) {
      CleanScan(users, Lookup(port, 1));
    }
    if r.Found? {
      assert Matches(Lookup(port, 1), Split(users[r.index]));
    }
  }

  // ---------------------------------------------------------------------
  // The router

  /** Empty or whitespace-only text raises before anything is sent. */
  lemma BlankTextFaults(uid: string, remark: string, text: string, env: Env)
    ensures AllSpace(text) <==> UserMsgEffect(uid, remark, text, env) == Abort(EmptyCommand)
  {
    SplitEmptyIffBlank(text);
    if !AllSpace(text) {
      var e := UserMsgEffect(uid, remark, text, env);
      assert e.outcome != Crash(EmptyCommand) by {
        var cmd := Split(text);
        var c := Classify(cmd);
        match c
        case Bind(port, password) =>
          assert RegistrationEffect(uid, env.users, port, password).outcome != Crash(EmptyCommand);
        case _ =>
      }
    }
  }

  /** An unbound sender whose first token is one of "2", "4", "5", "解除绑定"
      and "改密码" gets the notice first, and then the branch runs anyway;
      every other message goes straight to its branch. */
  lemma NoticeThenBranch(uid: string, remark: string, text: string, env: Env)
    requires Split(text) != []
    ensures var cmd := Split(text);
      var branch := DispatchEffect(uid, remark, Classify(cmd), env);
      var e := UserMsgEffect(uid, remark, text, env);
      && e.outcome == branch.outcome && e.remark == branch.remark && e.commands == branch.commands
      && (cmd[0] in BindingRequired && !IsRegistered(remark) ==> e.sent == [Text(uid, NoticeUnbound)] + branch.sent)
      && (cmd[0] !in BindingRequired || IsRegistered(remark) ==> e.sent == branch.sent)
  {
  }

  /** `get_port` ignores the first token: a sender whose remark is
      "<name> <port>" with a first token other than "SS" is not bound, gets
      the notice for "改密码 <password>", and then the password of that port
      is changed anyway. */
  lemma {:induction false} UnboundRemarkStillChangesPassword(uid: string, name: string, n: nat, password: string, env: Env)
    requires IsToken(name) && name != Tag && IsToken(password)
    requires n >= MinChangeablePort
    ensures var remark := Join([name, Decimal(n)]);
      var e := UserMsgEffect(uid, remark, Join([CmdChangePassword, password]), env);
      && !IsRegistered(remark)
      && e.outcome == Done
      && e.commands == [ChangePasswordCommand(Decimal(n), password)]
      && e.sent == [Text(uid, NoticeUnbound),
                    Text(uid, if env.exitStatus == 0 then PasswordChanged + password else PasswordFailed)]
  {
    var remark := Join([name, Decimal(n)]);
    var text := Join([CmdChangePassword, password]);
    DecimalIsToken(n);
    SplitJoin([name, Decimal(n)]);
    SplitJoin([CmdChangePassword, password]);
    ParseLongDecimal(n);
    assert !IsRegistered(remark);
    assert Classify(Split(text)) == ChangePassword(password);
    assert ChangePasswordEffect(uid, remark, password, env.exitStatus).commands
        == [ChangePasswordCommand(Decimal(n), password)];
  }

  /** Likewise "2" from such a sender gets the notice and then the traffic
      lookup for the remark's second token. */
  lemma {:induction false} UnboundRemarkStillLooksUpTraffic(uid: string, name: string, port: string, env: Env)
    requires IsToken(name) && name != Tag && IsToken(port)
    ensures var remark := Join([name, port]);
      var e := UserMsgEffect(uid, remark, "2", env);
      && !IsRegistered(remark)
      && PortOf(remark) == Some(port)
      && e.sent == [Text(uid, NoticeUnbound)] + TrafficEffect(uid, remark, env.traffic).sent
      && e.outcome == TrafficEffect(uid, remark, env.traffic).outcome
  {
    SplitJoin([name, port]);
    SplitJoin(["2"]);
  }

  /** "绑定" with fewer than three tokens and "改密码" with fewer than two get
      the menu, like any unknown first token. */
  lemma ShortCommandsGetMenu(uid: string, remark: string, text: string, env: Env)
    requires Split(text) != []
    requires var cmd := Split(text);
      (cmd[0] == CmdBind && |cmd| < 3) || (cmd[0] == CmdChangePassword && |cmd| < 2) || cmd[0] !in CommandWords
    ensures var cmd := Split(text);
      var e := UserMsgEffect(uid, remark, text, env);
      e.remark == None && e.commands == [] &&
      e.sent == (if NeedsNotice(remark, cmd) then [Text(uid, NoticeUnbound)] else []) + [Text(uid, Menu)]
  {
  }

  /** The remark changes only in the "绑定" and "解除绑定" branches. */
  lemma RemarkChangesOnlyOnBindOrUnbind(uid: string, remark: string, text: string, env: Env)
    requires UserMsgEffect(uid, remark, text, env).remark.Some?
    ensures var cmd := Split(text);
      cmd != [] && (Classify(cmd).Bind? || Classify(cmd).Unbind?)
  {
  }

  /** A shell command runs only in the "改密码" branch. */
  lemma CommandsOnlyOnChangePassword(uid: string, remark: string, text: string, env: Env)
    requires UserMsgEffect(uid, remark, text, env).commands != []
    ensures var cmd := Split(text);
      cmd != [] && Classify(cmd).ChangePassword?
  {
  }

  /** The message "绑定 <port> <password>" from any sender, registered or not,
      sends no notice and is exactly the binding handler. */
  lemma BindMessage(uid: string, remark: string, port: string, password: string, env: Env)
    requires IsToken(port) && IsToken(password)
    ensures UserMsgEffect(uid, remark, Join([CmdBind, port, password]), env)
         == RegistrationEffect(uid, env.users, port, password)
  {
    SplitJoin([CmdBind, port, password]);
  }

  /** The message "解除绑定" from any sender unbinds it; an unbound sender
      gets the notice before the confirmation. */
  lemma UnbindMessage(uid: string, remark: string, env: Env)
    ensures var e := UserMsgEffect(uid, remark, CmdUnbind, env);
      && e.remark == Some(UnboundRemark)
      && e.outcome == Done
      && e.sent == (if IsRegistered(remark) then [] else [Text(uid, NoticeUnbound)]) + [Text(uid, UnbindOk)]
  {
    SplitJoin([CmdUnbind]);
  }

  /** Sending "绑定 <port> <password>" with listed credentials and then
      "解除绑定" leaves the sender unregistered, and the second message gets
      no notice because the sender was bound by then. */
  lemma {:induction false} BindThenUnbindMessages(uid: string, remark: string, port: string, password: string, env: Env)
    requires IsToken(port) && IsToken(password)
    requires Scan(env.users, Credential(port, password)).Found?
    ensures var bound := RemarkAfter(remark, UserMsgEffect(uid, remark, Join([CmdBind, port, password]), env));
      var e := UserMsgEffect(uid, bound, CmdUnbind, env);
      && IsRegistered(bound)
      && e.sent == [Text(uid, UnbindOk)]
      && !IsRegistered(RemarkAfter(bound, e))
  {
    BindMessage(uid, remark, port, password, env);
    BindRegisters(port);
    UnbindMessage(uid, BoundRemark(port), env);
    UnbindUnregisters();
  }
}
