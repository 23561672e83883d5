/** The binding state of a contact, kept in its remark name: `"SS <port>"`
    when bound, `""` after unbinding. Also Python 2's `long()` on the port. */
module Binding {
  import opened Outcomes
  import opened Tokens

  const Tag: string := "SS"

  /** The abstract binding state that the remark name encodes. */
  datatype State = Unbound | Bound(port: string)

  /** `is_registered`: the remark has more than one token and the first is "SS". */
  predicate IsRegistered(remark: string)
    ensures IsRegistered(remark) ==> PortOf(remark).Some?
  {
    var names := Split(remark);
    |names| > 1 && names[0] == Tag
  }

  /** `get_port`: the second token of the remark, whatever the first one is;
      `None` where `names[1]` raises IndexError. */
  function PortOf(remark: string): (r: Option<string>)
    ensures r.Some? <==> |Split(remark)| > 1
    ensures r.Some? ==> IsToken(r.value)
  {
    var names := Split(remark);
    if |names| > 1 then Some(names[1]) else None
  }

  /** `get_port` yields `p` exactly when `p` is the remark's second token. */
  lemma PortOfIff(remark: string, p: string)
    ensures PortOf(remark) == Some(p) <==> exists a, rest :: IsToken(a) && Split(remark) == [a, p] + rest
  {
    if PortOf(remark) == Some(p) {
      assert Split(remark) == [Split(remark)[0], p] + Split(remark)[2..];
    }
  }

  /** The remark written by a successful binding. */
  function BoundRemark(port: string): string {
    Tag + " " + port
  }

  /** The remark written by unbinding. */
  const UnboundRemark: string := ""

  /** Reads the binding state from a remark name. */
  function Decode(remark: string): (b: State)
    ensures b.Bound? <==> IsRegistered(remark)
    ensures b.Bound? ==> IsToken(b.port) && PortOf(remark) == Some(b.port)
  {
    if IsRegistered(remark) then Bound(Split(remark)[1]) else Unbound
  }

  /** Writes a binding state as a remark name. */
  function Encode(b: State): string {
    match b
    case Unbound => UnboundRemark
    case Bound(port) => BoundRemark(port)
  }

  lemma BoundRemarkSplits(port: string)
    requires IsToken(port)
    ensures Split(BoundRemark(port)) == [Tag, port]
  {
    assert Join([Tag, port]) == BoundRemark(port);
    SplitJoin([Tag, port]);
  }

  /** After binding to a port that is a single token, the contact is
      registered and `get_port` gives that port back. */
  lemma BindRegisters(port: string)
    requires IsToken(port)
    ensures IsRegistered(BoundRemark(port))
    ensures PortOf(BoundRemark(port)) == Some(port)
  {
    BoundRemarkSplits(port);
  }

  /** After unbinding the contact is not registered and has no port. */
  lemma UnbindUnregisters()
    ensures !IsRegistered(UnboundRemark)
    ensures PortOf(UnboundRemark) == None
  {
  }

  /** `is_registered` holds iff the remark's tokens are "SS", a port, and
      possibly more tokens after it. */
  lemma RegisteredIff(remark: string)
    ensures IsRegistered(remark) <==>
      exists port, rest :: IsToken(port) && Split(remark) == [Tag, port] + rest
  {
    var names := Split(remark);
    if IsRegistered(remark) {
      assert names == [Tag, names[1]] + names[2..];
    }
  }

  /** Decoding an encoded binding gives it back. */
  lemma DecodeEncode(b: State)
    requires b.Bound? ==> IsToken(b.port)
    ensures Decode(Encode(b)) == b
  {
    if b.Bound? {
      BoundRemarkSplits(b.port);
    }
  }

  /** Re-encoding a decoded remark keeps its binding state. */
  lemma EncodeDecode(remark: string)
    ensures Decode(Encode(Decode(remark))) == Decode(remark)
  {
    DecodeEncode(Decode(remark));
  }

  // ---------------------------------------------------------------------
  // long(port)

  predicate IsDigit(c: char) {
    '0' <= c <= '9'
  }

  predicate AllDigits(s: string) {
    forall i :: 0 <= i < |s| ==> IsDigit(s[i])
  }

  /** The value of a string of decimal digits. */
  function DigitsValue(s: string): nat
    requires AllDigits(s)
  {
    if s == [] then 0
    else DigitsValue(s[..|s| - 1]) * 10 + (s[|s| - 1] as int - '0' as int)
  }

  /** The decimal representation of `n`, as `str(n)` prints it. */
  function Decimal(n: nat): (s: string)
    ensures |s| > 0 && AllDigits(s)
  {
    var d := ['0' + (n % 10) as char];
    if n < 10 then d else Decimal(n / 10) + d
  }

  predicate IsSign(c: char) {
    c == '+' || c == '-'
  }

  predicate IsSuffix(c: char) {
    c == 'L' || c == 'l'
  }

  /** The strings Python 2 `long()` accepts in base 10, once the whitespace
      around them is gone: digits, with an optional sign in front and an
      optional `L` or `l` behind. */
  predicate LongLiteral(s: string) {
    || (|s| > 0 && AllDigits(s))
    || (|s| > 1 && IsSign(s[0]) && AllDigits(s[1..]))
    || (|s| > 1 && IsSuffix(s[|s| - 1]) && AllDigits(s[..|s| - 1]))
    || (|s| > 2 && IsSign(s[0]) && IsSuffix(s[|s| - 1]) && AllDigits(s[1..|s| - 1]))
  }

  /** Python 2 `long(s)` on a string without whitespace: an optional sign,
      one or more decimal digits and an optional `L` or `l` suffix; `None`
      where it raises ValueError. */
  function ParseLong(s: string): (r: Option<int>)
    ensures r.Some? <==> LongLiteral(s)
    ensures |s| > 0 && AllDigits(s) ==> r == Some(DigitsValue(s))
    ensures |s| > 1 && s[0] == '-' && AllDigits(s[1..]) ==> r == Some(-(DigitsValue(s[1..]) as int))
    ensures r.Some? && r.value < 0 ==> s[0] == '-'
  {
    var start := if |s| > 0 && IsSign(s[0]) then 1 else 0;
    var end := if |s| > start && IsSuffix(s[|s| - 1]) then |s| - 1 else |s|;
    assert s[0..|s|] == s;
    if start < end && AllDigits(s[start..end]) then
      var v: int := DigitsValue(s[start..end]);
      Some(if start == 1 && s[0] == '-' then -v else v)
    else None
  }

  /** The values of the signed and suffixed forms: "+" keeps the value, "-"
      negates it, and a trailing `L` or `l` is ignored. */
  lemma ParseLongForms(s: string)
    ensures |s| > 1 && s[0] == '+' && AllDigits(s[1..]) ==> ParseLong(s) == Some(DigitsValue(s[1..]))
    ensures |s| > 1 && IsSuffix(s[|s| - 1]) && AllDigits(s[..|s| - 1]) ==>
      ParseLong(s) == Some(DigitsValue(s[..|s| - 1]))
    ensures |s| > 2 && IsSign(s[0]) && IsSuffix(s[|s| - 1]) && AllDigits(s[1..|s| - 1]) ==>
      ParseLong(s) == Some(if s[0] == '-' then -(DigitsValue(s[1..|s| - 1]) as int) else DigitsValue(s[1..|s| - 1]))
  {
    if |s| > 1 {
      assert s[1..][|s| - 2] == s[|s| - 1];
      assert s[1..|s|] == s[1..];
      assert s[..|s| - 1][0] == s[0];
    }
  }

  lemma {:induction false} DigitsValueDecimal(n: nat)
    ensures DigitsValue(Decimal(n)) == n
    decreases n
  {
    var d := ['0' + (n % 10) as char];
    if n < 10 {
      assert Decimal(n) == d;
    } else {
      var s := Decimal(n / 10) + d;
      assert s[..|s| - 1] == Decimal(n / 10);
      DigitsValueDecimal(n / 10);
    }
  }

  /** `long(str(n)) == n` for every natural number. */
  lemma ParseLongDecimal(n: nat)
    ensures ParseLong(Decimal(n)) == Some(n)
  {
    DigitsValueDecimal(n);
  }

  /** A decimal port is a single token, so binding to it is decodable. */
  lemma DecimalIsToken(n: nat)
    ensures IsToken(Decimal(n))
  {
  }
}
