/** The line scans over the flat files `ssusers` and `sstraffic`: each line
    is split into whitespace tokens, a line whose first token is exactly "#"
    is skipped, and the first line that decides the scan (a hit, or an
    IndexError) ends it, as the `for line in lines: ... break` loops do. */
module LineScan {
  import opened Outcomes
  import opened Tokens

  /** What one line does to a scan. */
  datatype Verdict = Skip | Take | Fail(fault: Fault)

  /** The tests the three scans apply to a line's tokens. */
  datatype Rule =
    | Credential(port: string, password: string)   // handle_registration
    | Lookup(port: string, minFields: nat)          // handle_traffic_check (3), handle_user_info_check (1)

  datatype ScanResult = Found(index: nat) | NotFound | Failed(index: nat, fault: Fault)

  /** A non-comment line for the rule's port with the fields the rule asks for. */
  predicate Matches(rule: Rule, t: seq<string>) {
    && t != [] && t[0] != "#" && t[0] == rule.port
    && match rule
       case Credential(_, password) => |t| > 1 && t[1] == password
       case Lookup(_, minFields) => |t| > minFields
  }

  /** The verdict of `rule` on line number `line`, whose tokens are `t`. */
  function Judge(rule: Rule, t: seq<string>, line: nat): (v: Verdict)
    ensures v.Fail? ==> v.fault == BlankLine(line) || v.fault == MissingPassword(line)
    ensures v == Fail(BlankLine(line)) <==> t == []
    ensures v.Fail? && t != [] ==> rule.Credential? && t[0] != "#" && t[0] == rule.port && |t| == 1
    ensures v == Take <==> Matches(rule, t)
    ensures rule.Credential? && |t| == 1 && t[0] != "#" && t[0] == rule.port ==> v == Fail(MissingPassword(line))
  {
    if t == [] then Fail(BlankLine(line))
    else if t[0] == "#" then Skip
    else match rule
      case Credential(port, password) =>
        if t[0] == port then
          if |t| < 2 then Fail(MissingPassword(line))
          else if t[1] == password then Take else Skip
        else Skip
      case Lookup(port, minFields) =>
        if t[0] == port && |t| > minFields then Take else Skip
  }

  function VerdictAt(lines: seq<string>, rule: Rule, i: nat): Verdict
    requires i < |lines|
  {
    Judge(rule, Split(lines[i]), i)
  }

  /** The scan from line `i` on: the first line whose verdict is not Skip. */
  function ScanFrom(lines: seq<string>, rule: Rule, i: nat): (r: ScanResult)
    requires i <= |lines|
    ensures r.Found? ==> i <= r.index < |lines| && VerdictAt(lines, rule, r.index) == Take
    ensures r.Failed? ==> i <= r.index < |lines| && VerdictAt(lines, rule, r.index) == Fail(r.fault)
    ensures forall k :: i <= k < |lines| && (r.NotFound? || k < r.index) ==> VerdictAt(lines, rule, k) == Skip
    decreases |lines| - i
  {
    if i == |lines| then NotFound
    else match VerdictAt(lines, rule, i)
      case Skip => ScanFrom(lines, rule, i + 1)
      case Take => Found(i)
      case Fail(f) => Failed(i, f)
  }

  function Scan(lines: seq<string>, rule: Rule): ScanResult {
    ScanFrom(lines, rule, 0)
  }

  /** The scan loop itself. */
  method ScanLines(lines: seq<string>, rule: Rule) returns (r: ScanResult)
    ensures r == Scan(lines, rule)
  {
    var i := 0;
    while i < |lines|
      invariant 0 <= i <= |lines|
      invariant ScanFrom(lines, rule, i) == Scan(lines, rule)
    {
      var elements := Split(lines[i]);
      var v := Judge(rule, elements, i);
      if v == Take {
        return Found(i);
      } else if v.Fail? {
        return Failed(i, v.fault);
      }
      i := i + 1;
    }
    return NotFound;
  }

  /** No line of the file can make the scan raise. */
  ghost predicate Clean(lines: seq<string>, rule: Rule) {
    forall k :: 0 <= k < |lines| ==> !VerdictAt(lines, rule, k).Fail?
  }

  /** The file has a line that the rule takes. */
  ghost predicate Listed(lines: seq<string>, rule: Rule) {
    exists k :: 0 <= k < |lines| && VerdictAt(lines, rule, k) == Take
  }

  /** On a file no line of which raises, the scan finds a line exactly when
      one is listed, and then the first such line. */
  lemma CleanScan(lines: seq<string>, rule: Rule)
    requires Clean(lines, rule)
    ensures !Scan(lines, rule).Failed?
    ensures Scan(lines, rule).Found? <==> Listed(lines, rule)
    ensures Scan(lines, rule).Found? ==>
      forall k :: 0 <= k < Scan(lines, rule).index ==> VerdictAt(lines, rule, k) != Take
  {
    var r := Scan(lines, rule);
    if Listed(lines, rule) {
      var k :| 0 <= k < |lines| && VerdictAt(lines, rule, k) == Take;
      assert !r.NotFound?;
    }
  }

  /** Appending lines after a hit does not change the result. */
  lemma {:induction false} ScanFromAppend(lines: seq<string>, more: seq<string>, rule: Rule, i: nat)
    requires i <= |lines|
    requires !ScanFrom(lines, rule, i).NotFound?
    ensures ScanFrom(lines + more, rule, i) == ScanFrom(lines, rule, i)
    decreases |lines| - i
  {
    assert VerdictAt(lines + more, rule, i) == VerdictAt(lines, rule, i) by {
      assert (lines + more)[i] == lines[i];
    }
    if VerdictAt(lines, rule, i) == Skip {
      ScanFromAppend(lines, more, rule, i + 1);
    }
  }
}
