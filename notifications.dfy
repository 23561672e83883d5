/** The two patterns `handle_group_msg` searches a system notification for,
    with the semantics of Python's `re.search`: the match that starts
    leftmost, and among those the one the greedy `(.+)` groups choose, where
    `.` is any character but a newline.
      - member joined:  `邀请(.+)加入了群聊`
      - group renamed:  `(.+)修改群名为“(.+)”`
    The source searches UTF-8 byte strings; since every literal here is a
    whole UTF-8 sequence and a newline byte is only ever the newline
    character, matching bytes and matching characters give the same groups. */
module Notifications {
  import opened Outcomes

  const Invite: string := "邀请"
  const Joined: string := "加入了群聊"
  const Renamed: string := "修改群名为“"
  const CloseQuote: string := "”"

  /** `lit` occurs in `s` at index `k`. */
  predicate LitAt(s: string, k: int, lit: string) {
    0 <= k && k + |lit| <= |s| && s[k..k + |lit|] == lit
  }

  /** No newline in `s[lo..hi]`. */
  predicate NoNewline(s: string, lo: int, hi: int) {
    forall x :: lo <= x < hi ==> 0 <= x < |s| && s[x] != '\n'
  }

  /** The end of the line that contains index `k`: the first newline at or
      after `k`, or the end of `s`. */
  function LineEnd(s: string, k: nat): (e: nat)
    requires k <= |s|
    ensures k <= e <= |s|
    ensures forall x :: k <= x < e ==> s[x] != '\n'
    ensures e < |s| ==> s[e] == '\n'
    decreases |s| - k
  {
    if k == |s| || s[k] == '\n' then k else LineEnd(s, k + 1)
  }

  /** The last occurrence of `lit` starting in `[lo, hi]`. */
  function LastLitIn(s: string, lit: string, lo: int, hi: int): (r: Option<int>)
    ensures r.Some? ==> lo <= r.value <= hi && LitAt(s, r.value, lit)
    ensures r.Some? ==> forall x :: r.value < x <= hi ==> !LitAt(s, x, lit)
    ensures r.None? ==> forall x :: lo <= x <= hi ==> !LitAt(s, x, lit)
    decreases hi - lo
  {
    if hi < lo then None
    else if LitAt(s, hi, lit) then Some(hi)
    else LastLitIn(s, lit, lo, hi - 1)
  }

  // ---------------------------------------------------------------------
  // 邀请(.+)加入了群聊

  /** The pattern matches from `i` to the end of `Joined` at `j + 5`, with
      the group `s[i + 2..j]`. */
  ghost predicate EnterMatch(s: string, i: int, j: int) {
    && LitAt(s, i, Invite)
    && i + |Invite| < j
    && LitAt(s, j, Joined)
    && NoNewline(s, i + |Invite|, j)
  }

  /** The match `re.search` reports: leftmost, then greedy. */
  ghost predicate SearchedEnter(s: string, i: int, j: int) {
    && EnterMatch(s, i, j)
    && (forall i', j' :: EnterMatch(s, i', j') ==> i <= i')
    && (forall j' :: EnterMatch(s, i, j') ==> j' <= j)
  }

  /** The greedy group end for a match starting at `i`, if any. */
  function EnterEnd(s: string, i: nat): (r: Option<int>)
    requires i <= |s|
    ensures r.Some? ==> EnterMatch(s, i, r.value)
    ensures r.Some? ==> forall j :: EnterMatch(s, i, j) ==> j <= r.value
    ensures r.None? ==> forall j :: !EnterMatch(s, i, j)
  {
    if !LitAt(s, i, Invite) then None
    else
      var e := LineEnd(s, i + |Invite|);
      var r := LastLitIn(s, Joined, i + |Invite| + 1, e);
      assert forall j :: EnterMatch(s, i, j) ==> j <= e;
      r
  }

  /** `re.search` over the start positions from `i` on. */
  function EnterSearch(s: string, i: nat): (r: Option<(int, int)>)
    requires i <= |s|
    ensures r.Some? ==> i <= r.value.0 && EnterMatch(s, r.value.0, r.value.1)
    ensures r.Some? ==> forall a, b :: i <= a && EnterMatch(s, a, b) ==> r.value.0 <= a
    ensures r.Some? ==> forall b :: EnterMatch(s, r.value.0, b) ==> b <= r.value.1
    ensures r.None? ==> forall a, b :: i <= a ==> !EnterMatch(s, a, b)
    decreases |s| - i
  {
    if i == |s| then None
    else match EnterEnd(s, i)
      case Some(j) => Some((i, j))
      case None => EnterSearch(s, i + 1)
  }

  /** `m.group(1)` of `re.search(r'邀请(.+)加入了群聊', s)`, or `None` when it
      does not match. */
  function FindEnter(s: string): (name: Option<string>)
    ensures name.None? <==> forall a, b :: !EnterMatch(s, a, b)
    ensures name.Some? ==> exists a, b :: SearchedEnter(s, a, b) && name.value == s[a + |Invite|..b]
    ensures name.Some? ==> |name.value| > 0 && '\n' !in name.value
  {
    match EnterSearch(s, 0)
    case None => None
    case Some((a, b)) =>
      assert SearchedEnter(s, a, b);
      var name := s[a + |Invite|..b];
      assert forall x :: 0 <= x < |name| ==> name[x] == s[a + |Invite| + x];
      Some(name)
  }

  /** The member-joined pattern matches exactly when the text contains
      "邀请", a non-empty newline-free name, and "加入了群聊". */
  lemma EnterMatchesDecomposition(p: string, name: string, q: string)
    requires |name| > 0 && '\n' !in name
    ensures FindEnter(p + Invite + name + Joined + q).Some?
  {
    var s := p + Invite + name + Joined + q;
    var i := |p|;
    var j := |p| + |Invite| + |name|;
    assert s[i..i + |Invite|] == Invite;
    assert s[j..j + |Joined|] == Joined;
    assert forall x :: i + |Invite| <= x < j ==> s[x] == name[x - i - |Invite|];
    assert EnterMatch(s, i, j);
  }

  /** The whole notification "<inviter>邀请<name>加入了群聊", where the inviter's
      name does not contain "邀请": the group is exactly `name`. */
  lemma EnterNotification(inviter: string, name: string)
    requires |name| > 0 && '\n' !in name
    requires forall x :: !LitAt(inviter, x, Invite)
    ensures FindEnter(inviter + Invite + name + Joined) == Some(name)
  {
    var s := inviter + Invite + name + Joined;
    var i := |inviter|;
    var j := |inviter| + |Invite| + |name|;
    assert s[i..i + |Invite|] == Invite;
    assert s[j..j + |Joined|] == Joined;
    assert |s| == j + |Joined|;
    assert forall x :: i + |Invite| <= x < j ==> s[x] == name[x - i - |Invite|];
    assert EnterMatch(s, i, j);
    forall a | 0 <= a < i ensures !LitAt(s, a, Invite) {
      if a + |Invite| <= i {
        assert s[a..a + |Invite|] == inviter[a..a + |Invite|];
        assert !LitAt(inviter, a, Invite);
      } else {
        assert s[a + 1] == Invite[0];
        assert s[a + 1] != Invite[1];
      }
    }
    var r := FindEnter(s);
    var a, b :| SearchedEnter(s, a, b) && r.value == s[a + |Invite|..b];
    assert a == i && b == j;
    assert s[i + |Invite|..j] == name;
  }

  // ---------------------------------------------------------------------
  // (.+)修改群名为“(.+)”

  /** The pattern matches from `i` to the closing quote at `m`, with the
      groups `s[i..k]` (who renamed) and `s[k + 6..m]` (the new name). */
  ghost predicate RenameMatch(s: string, i: int, k: int, m: int) {
    && 0 <= i < k
    && LitAt(s, k, Renamed)
    && k + |Renamed| < m
    && LitAt(s, m, CloseQuote)
    && NoNewline(s, i, m)
  }

  /** The match `re.search` reports: leftmost, then the first group greedy,
      then the second. */
  ghost predicate SearchedRename(s: string, i: int, k: int, m: int) {
    && RenameMatch(s, i, k, m)
    && (forall i', k', m' :: RenameMatch(s, i', k', m') ==> i <= i')
    && (forall k', m' :: RenameMatch(s, i, k', m') ==> k' <= k)
    && (forall m' :: RenameMatch(s, i, k, m') ==> m' <= m)
  }

  /** The greedy groups of a match starting at `i`, if any. */
  function RenameAt(s: string, i: nat): (r: Option<(int, int)>)
    requires i <= |s|
    ensures r.Some? ==> RenameMatch(s, i, r.value.0, r.value.1)
    ensures r.Some? ==> forall k, m :: RenameMatch(s, i, k, m) ==> k <= r.value.0
    ensures r.Some? ==> forall m :: RenameMatch(s, i, r.value.0, m) ==> m <= r.value.1
    ensures r.None? ==> forall k, m :: !RenameMatch(s, i, k, m)
  {
    var e := LineEnd(s, i);
    assert forall k, m :: RenameMatch(s, i, k, m) ==> m <= e;
    match LastLitIn(s, CloseQuote, i, e)
    case None => None
    case Some(close) =>
      match LastLitIn(s, Renamed, i + 1, close - |Renamed| - 1)
      case None => None
      case Some(k) => Some((k, close))
  }

  /** `re.search` over the start positions from `i` on. */
  function RenameSearch(s: string, i: nat): (r: Option<(int, int, int)>)
    requires i <= |s|
    ensures r.Some? ==> i <= r.value.0 && RenameMatch(s, r.value.0, r.value.1, r.value.2)
    ensures r.Some? ==> forall a, k, m :: i <= a && RenameMatch(s, a, k, m) ==> r.value.0 <= a
    ensures r.Some? ==> forall k, m :: RenameMatch(s, r.value.0, k, m) ==> k <= r.value.1
    ensures r.Some? ==> forall m :: RenameMatch(s, r.value.0, r.value.1, m) ==> m <= r.value.2
    ensures r.None? ==> forall a, k, m :: i <= a ==> !RenameMatch(s, a, k, m)
    decreases |s| - i
  {
    if i == |s| then None
    else match RenameAt(s, i)
      case Some((k, m)) => Some((i, k, m))
      case None => RenameSearch(s, i + 1)
  }

  /** `(n.group(1), n.group(2))` of `re.search(r'(.+)修改群名为“(.+)”', s)`:
      who renamed the group and its new name, or `None`. */
  function FindRename(s: string): (r: Option<(string, string)>)
    ensures r.None? <==> forall a, k, m :: !RenameMatch(s, a, k, m)
    ensures r.Some? ==>
      exists a, k, m :: SearchedRename(s, a, k, m) && r.value == (s[a..k], s[k + |Renamed|..m])
    ensures r.Some? ==> |r.value.0| > 0 && '\n' !in r.value.0 && |r.value.1| > 0 && '\n' !in r.value.1
  {
    match RenameSearch(s, 0)
    case None => None
    case Some((a, k, m)) =>
      assert SearchedRename(s, a, k, m);
      var people := s[a..k];
      var newName := s[k + |Renamed|..m];
      assert forall x :: 0 <= x < |people| ==> people[x] == s[a + x];
      assert forall x :: 0 <= x < |newName| ==> newName[x] == s[k + |Renamed| + x];
      Some((people, newName))
  }

  /** The rename pattern matches exactly when the text has a non-empty
      newline-free actor, "修改群名为“", a non-empty newline-free name and "”". */
  lemma RenameMatchesDecomposition(p: string, actor: string, newName: string, q: string)
    requires |actor| > 0 && '\n' !in actor && |newName| > 0 && '\n' !in newName
    ensures FindRename(p + actor + Renamed + newName + CloseQuote + q).Some?
  {
    var s := p + actor + Renamed + newName + CloseQuote + q;
    var i := |p|;
    var k := |p| + |actor|;
    var m := k + |Renamed| + |newName|;
    assert s[k..k + |Renamed|] == Renamed;
    assert s[m..m + 1] == CloseQuote;
    assert forall x :: i <= x < k ==> s[x] == actor[x - i];
    assert forall x :: k <= x < k + |Renamed| ==> s[x] == Renamed[x - k];
    assert forall x :: k + |Renamed| <= x < m ==> s[x] == newName[x - k - |Renamed|];
    assert RenameMatch(s, i, k, m);
  }

  /** `re.search` reports one match only. */
  lemma SearchedRenameUnique(s: string, a: int, k: int, m: int, a2: int, k2: int, m2: int)
    requires SearchedRename(s, a, k, m) && SearchedRename(s, a2, k2, m2)
    ensures a == a2 && k == k2 && m == m2
  {
  }

  /** In "<actor>修改群名为“<name>”" the match starting at 0 with the groups
      `actor` and `newName` is the one `re.search` reports. */
  lemma RenameNotificationSearched(actor: string, newName: string)
    requires |actor| > 0 && '\n' !in actor && |newName| > 0 && '\n' !in newName
    requires '“' !in newName
    ensures SearchedRename(actor + Renamed + newName + CloseQuote, 0, |actor|, |actor| + |Renamed| + |newName|)
  {
    var s := actor + Renamed + newName + CloseQuote;
    var k := |actor|;
    var m := k + |Renamed| + |newName|;
    assert |s| == m + 1;
    assert s[k..k + |Renamed|] == Renamed;
    assert s[m..m + 1] == CloseQuote;
    assert forall x :: 0 <= x < k ==> s[x] == actor[x];
    assert forall x :: k <= x < k + |Renamed| ==> s[x] == Renamed[x - k];
    assert forall x :: k + |Renamed| <= x < m ==> s[x] == newName[x - k - |Renamed|];
    assert RenameMatch(s, 0, k, m);
    forall k' | k < k' && k' + |Renamed| < m ensures !LitAt(s, k', Renamed) {
      assert s[k'..k' + |Renamed|][0] == s[k'];
      assert s[k'..k' + |Renamed|][5] == s[k' + 5];
      if k' < k + |Renamed| {
        assert s[k'] == Renamed[k' - k];
        assert Renamed[k' - k] != Renamed[0];
      } else {
        assert s[k' + 5] == newName[k' + 5 - k - |Renamed|];
        assert s[k' + 5] != Renamed[5];
      }
    }
  }

  /** The whole notification "<actor>修改群名为“<name>”" with newline-free
      parts and no "“" in the new name: the groups are exactly the actor and
      the new name. */
  lemma RenameNotification(actor: string, newName: string)
    requires |actor| > 0 && '\n' !in actor && |newName| > 0 && '\n' !in newName
    requires '“' !in newName
    ensures FindRename(actor + Renamed + newName + CloseQuote) == Some((actor, newName))
  {
    var s := actor + Renamed + newName + CloseQuote;
    var k := |actor|;
    var m := k + |Renamed| + |newName|;
    RenameNotificationSearched(actor, newName);
    var r := FindRename(s);
    var a, k1, m1 :| SearchedRename(s, a, k1, m1) && r.value == (s[a..k1], s[k1 + |Renamed|..m1]);
    SearchedRenameUnique(s, a, k1, m1, 0, k, m);
    assert s[..k] == actor;
    assert s[k + |Renamed|..m] == newName;
  }
}
