/**
 * The host-line filter of the run loop: a line of the host file is lower-cased,
 * split into whitespace-separated fields, and its first field is accepted as a
 * host name only when it matches the regular expression `^rh[a-z0-9]+$`.
 */
module Hostname {
  import opened Common

  /** ASCII lower-casing of one character (Go's `unicode.ToLower` restricted to ASCII). */
  function LowerChar(c: char): char
  {
    if 'A' <= c <= 'Z' then (c as int - 'A' as int + 'a' as int) as char else c
  }

  /** `strings.ToLower`, character by character. */
  function ToLower(s: string): (r: string)
    ensures |r| == |s|
    ensures forall i :: 0 <= i < |s| ==> r[i] == LowerChar(s[i])
  {
    if s == [] then [] else [LowerChar(s[0])] + ToLower(s[1..])
  }

  /** A character that Go's `unicode.IsSpace` reports as white space (the separators of `strings.Fields`). */
  predicate IsSpace(c: char)
  {
    var n := c as int;
    (9 <= n <= 13) || n == 32 || n == 0x85 || n == 0xA0 || n == 0x1680 ||
    (0x2000 <= n <= 0x200A) || n == 0x2028 || n == 0x2029 || n == 0x202F ||
    n == 0x205F || n == 0x3000
  }

  predicate AllSpace(s: string)
  {
    forall i :: 0 <= i < |s| ==> IsSpace(s[i])
  }

  predicate NoSpace(s: string)
  {
    forall i :: 0 <= i < |s| ==> !IsSpace(s[i])
  }

  /** Drops the leading white space of `s`. */
  function TrimLeft(s: string): (r: string)
    ensures |r| <= |s| && r == s[|s| - |r|..]
    ensures AllSpace(s[..|s| - |r|])
    ensures r != [] ==> !IsSpace(r[0])
  {
    if s == [] then []
    else if IsSpace(s[0]) then
      var r := TrimLeft(s[1..]);
      assert s[1..][..|s[1..]| - |r|] == s[1..|s| - |r|];
      r
    else s
  }

  /** The longest prefix of `s` that holds no white space. */
  function TakeField(s: string): (t: string)
    ensures |t| <= |s| && t == s[..|t|]
    ensures NoSpace(t)
    ensures |t| < |s| ==> IsSpace(s[|t|])
    ensures s != [] && !IsSpace(s[0]) ==> t != []
  {
    if s == [] || IsSpace(s[0]) then [] else [s[0]] + TakeField(s[1..])
  }

  /** `strings.Fields(s)[0]`, or `None` when `strings.Fields(s)` is empty. */
  function FirstField(s: string): Option<string>
  {
    var r := TrimLeft(s);
    if r == [] then None else Some(TakeField(r))
  }

  /** A lower-case ASCII letter or a decimal digit: the class `[a-z0-9]`. */
  predicate IsLowerAlnum(c: char)
  {
    'a' <= c <= 'z' || '0' <= c <= '9'
  }

  /** The language of `^rh[a-z0-9]+$`, stated directly. */
  predicate IsHostName(t: string)
  {
    |t| >= 3 && t[0] == 'r' && t[1] == 'h' &&
    forall i :: 2 <= i < |t| ==> IsLowerAlnum(t[i])
  }

  /** States of a deterministic automaton for the anchored pattern `^rh[a-z0-9]+$`. */
  datatype MatchState = Start | SawR | SawRH | InTail | Dead

  function Step(q: MatchState, c: char): MatchState
  {
    match q
    case Start => if c == 'r' then SawR else Dead
    case SawR => if c == 'h' then SawRH else Dead
    case SawRH => if IsLowerAlnum(c) then InTail else Dead
    case InTail => if IsLowerAlnum(c) then InTail else Dead
    case Dead => Dead
  }

  function Scan(q: MatchState, t: string): MatchState
    decreases |t|
  {
    if t == [] then q else Scan(Step(q, t[0]), t[1..])
  }

  /** `validName.MatchString(t)` for `validName = regexp.MustCompile("^rh[a-z0-9]+$")`. */
  predicate Matches(t: string)
  {
    Scan(Start, t) == InTail
  }

  lemma {:induction false} ScanDead(t: string)
    ensures Scan(Dead, t) == Dead
  {
    if t != [] { ScanDead(t[1..]); }
  }

  lemma {:induction false} ScanTail(t: string)
    ensures Scan(InTail, t) == InTail <==> forall i :: 0 <= i < |t| ==> IsLowerAlnum(t[i])
  {
    if t != [] {
      if IsLowerAlnum(t[0]) {
        ScanTail(t[1..]);
        assert forall i :: 1 <= i < |t| ==> t[i] == t[1..][i - 1];
      } else {
        ScanDead(t[1..]);
      }
    }
  }

  /** The automaton accepts exactly the strings the pattern describes. */
  lemma {:induction false} MatchesIsHostName(t: string)
    ensures Matches(t) <==> IsHostName(t)
  {
    if |t| == 0 {
    } else if t[0] != 'r' {
      ScanDead(t[1..]);
    } else if |t| == 1 {
      assert Scan(Start, t) == Scan(SawR, []);
    } else if t[1] != 'h' {
      assert t[1..][1..] == t[2..];
      assert Scan(Start, t) == Scan(SawR, t[1..]);
      assert Scan(SawR, t[1..]) == Scan(Dead, t[2..]);
      ScanDead(t[2..]);
    } else if |t| == 2 {
      assert t[1..][1..] == [];
      assert Scan(Start, t) == Scan(SawRH, []);
    } else {
      var rest := t[2..];
      assert t[1..][1..] == rest;
      assert Scan(Start, t) == Scan(SawRH, rest);
      if IsLowerAlnum(rest[0]) {
        ScanTail(rest[1..]);
        assert forall i :: 3 <= i < |t| ==> t[i] == rest[1..][i - 3];
      } else {
        ScanDead(rest[1..]);
      }
    }
  }

  /**
   * The host name a line of the host file yields: the lower-cased line's first
   * field when it matches the pattern, and `None` for a blank line or a field
   * that does not match.
   */
  function ValidHost(line: string): Option<string>
  {
    match FirstField(ToLower(line))
    case None => None
    case Some(t) => if Matches(t) then Some(t) else None
  }

  /** What the filter accepts: a line is kept iff its lower-cased first field is in `^rh[a-z0-9]+$`, and the name kept is that field. */
  lemma ValidHostSpec(line: string)
    ensures ValidHost(line).Some? <==>
              FirstField(ToLower(line)).Some? && IsHostName(FirstField(ToLower(line)).value)
    ensures ValidHost(line).Some? ==> ValidHost(line) == FirstField(ToLower(line))
  {
    match FirstField(ToLower(line))
    case None =>
    case Some(t) => MatchesIsHostName(t);
  }

  /** A line with no field (empty or all white space) is rejected; anything accepted is a non-empty name without upper case or spaces. */
  lemma ValidHostShape(line: string)
    ensures AllSpace(line) ==> ValidHost(line).None?
    ensures ValidHost(line).Some? ==>
              var h := ValidHost(line).value;
              IsHostName(h) && NoSpace(h) && (forall i :: 0 <= i < |h| ==> !('A' <= h[i] <= 'Z'))
  {
    var low := ToLower(line);
    if AllSpace(line) {
      assert forall i :: 0 <= i < |low| ==> low[i] == line[i];
      assert AllSpace(low);
    }
    ValidHostSpec(line);
  }

  /** The field taken is the first field: only white space precedes it, and white space or the end of the line follows it. */
  lemma FirstFieldSpec(s: string)
    ensures FirstField(s).None? <==> AllSpace(s)
    ensures FirstField(s).Some? ==>
              var t := FirstField(s).value;
              exists i :: 0 <= i && i + |t| <= |s| && AllSpace(s[..i]) && s[i..i + |t|] == t &&
                          t != [] && NoSpace(t) && (i + |t| == |s| || IsSpace(s[i + |t|]))
  {
    var r := TrimLeft(s);
    var i := |s| - |r|;
    if r == [] {
      assert s[..i] == s;
    } else {
      assert !IsSpace(s[i]);
      var t := TakeField(r);
      assert s[i..i + |t|] == r[..|t|];
      if i + |t| < |s| {
        assert s[i + |t|] == r[|t|];
      }
    }
  }

  /** Evaluates `ValidHost` from its two stages, for the examples below. */
  lemma ValidHostFrom(line: string, low: string, t: string)
    requires ToLower(line) == low && FirstField(low) == Some(t)
    ensures ValidHost(line) == if Matches(t) then Some(t) else None
  {
  }

  /** Lower-casing twice is lower-casing once, so the filter ignores the case of the line. */
  lemma {:induction false} ValidHostIgnoresCase(line: string)
    ensures ToLower(ToLower(line)) == ToLower(line)
    ensures ValidHost(ToLower(line)) == ValidHost(line)
  {
    var low := ToLower(line);
    assert forall i :: 0 <= i < |low| ==> ToLower(low)[i] == low[i];
  }

  lemma ExampleHyphen()
    ensures ValidHost("rh-1") == None
  {
    assert ToLower("rh-1") == "rh-1" by {}
    assert FirstField("rh-1") == Some("rh-1") by {
      assert TrimLeft("rh-1") == "rh-1";
      assert TakeField("rh-1") == "rh-1";
    }
    assert !Matches("rh-1") by {}
    ValidHostFrom("rh-1", "rh-1", "rh-1");
  }

  /** Only the first field is looked at: a valid name followed by more text is kept. */
  lemma ExampleAccepted()
    ensures ValidHost("rh7 db") == Some("rh7")
  {
    assert ToLower("rh7 db") == "rh7 db" by {}
    FieldOfAccepted();
    assert Matches("rh7") by {}
    ValidHostFrom("rh7 db", "rh7 db", "rh7");
  }

  lemma FieldOfAccepted()
    ensures FirstField("rh7 db") == Some("rh7")
  {
    assert TrimLeft("rh7 db") == "rh7 db";
    assert TakeField(" db") == [];
    assert TakeField("rh7 db") == "rh7";
  }

  lemma ExampleTooShort()
    ensures ValidHost("rh") == None
  {
    assert ToLower("rh") == "rh";
    assert TakeField("rh") == "rh";
    assert !Matches("rh");
  }
}
