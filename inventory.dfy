/**
 * The inventory file's text: its fixed header and the line written for each
 * host whose credential was read, with the password escaped for the quoted
 * `ansible_password` field.
 */
module Inventory {
  const Backslash: char := '\\'

  /** The two characters the run loop escapes. */
  predicate IsQuote(c: char)
  {
    c == '\'' || c == '"'
  }

  function QuoteCount(s: string): nat
  {
    if s == [] then 0 else (if IsQuote(s[0]) then 1 else 0) + QuoteCount(s[1..])
  }

  /** `strings.ReplaceAll(s, target, r)` for a one-character `target`. */
  function ReplaceChar(s: string, target: char, r: string): string
  {
    if s == [] then [] else (if s[0] == target then r else [s[0]]) + ReplaceChar(s[1..], target, r)
  }

  /** The escaping as the run loop writes it: first every `'`, then every `"`. */
  function EscapeAsWritten(s: string): string
  {
    ReplaceChar(ReplaceChar(s, '\'', "\\'"), '"', "\\\"")
  }

  /** Escaping in one pass: a backslash in front of every quote, every other character unchanged. */
  function Escape(s: string): string
  {
    if s == [] then [] else (if IsQuote(s[0]) then [Backslash, s[0]] else [s[0]]) + Escape(s[1..])
  }

  /** Removes the backslash in front of each escaped quote, scanning from the left. */
  function Unescape(s: string): string
    decreases |s|
  {
    if |s| >= 2 && s[0] == Backslash && IsQuote(s[1]) then [s[1]] + Unescape(s[2..])
    else if s == [] then []
    else [s[0]] + Unescape(s[1..])
  }

  lemma {:induction false} ReplaceCharAppend(a: string, b: string, target: char, r: string)
    ensures ReplaceChar(a + b, target, r) == ReplaceChar(a, target, r) + ReplaceChar(b, target, r)
  {
    if a == [] {
      assert a + b == b;
    } else {
      assert (a + b)[0] == a[0];
      assert (a + b)[1..] == a[1..] + b;
      ReplaceCharAppend(a[1..], b, target, r);
    }
  }

  /** The two sequential `ReplaceAll` calls escape both quotes in a single pass: the first call adds no `"` for the second to find. */
  lemma {:induction false} EscapeAsWrittenIsEscape(s: string)
    ensures EscapeAsWritten(s) == Escape(s)
  {
    if s != [] {
      var x := s[0];
      var inner := ReplaceChar(s[1..], '\'', "\\'");
      var head := if x == '\'' then "\\'" else [x];
      assert ReplaceChar(s, '\'', "\\'") == head + inner;
      ReplaceCharAppend(head, inner, '"', "\\\"");
      assert ReplaceChar(head, '"', "\\\"") == if IsQuote(x) then [Backslash, x] else [x];
      EscapeAsWrittenIsEscape(s[1..]);
    }
  }

  lemma EscapeHead(s: string)
    ensures Escape(s) != [] ==> !IsQuote(Escape(s)[0])
  {
  }

  /** Unescaping the escaped password gives back the password, whatever backslashes it held. */
  lemma {:induction false} UnescapeEscape(s: string)
    ensures Unescape(Escape(s)) == s
  {
    if s != [] {
      var rest := Escape(s[1..]);
      UnescapeEscape(s[1..]);
      if IsQuote(s[0]) {
        assert Escape(s) == [Backslash, s[0]] + rest;
        assert (Escape(s))[2..] == rest;
      } else {
        EscapeHead(s[1..]);
        assert Escape(s) == [s[0]] + rest;
        assert (Escape(s))[1..] == rest;
      }
    }
  }

  /** Escaping adds exactly one character per quote. */
  lemma {:induction false} EscapeLength(s: string)
    ensures |Escape(s)| == |s| + QuoteCount(s)
  {
    if s != [] { EscapeLength(s[1..]); }
  }

  /** In the escaped text every quote has a backslash right before it. */
  lemma {:induction false} EscapedQuotesArePreceded(s: string)
    ensures forall i :: 0 <= i < |Escape(s)| && IsQuote(Escape(s)[i]) ==> i > 0 && Escape(s)[i - 1] == Backslash
  {
    if s != [] {
      EscapedQuotesArePreceded(s[1..]);
      var rest := Escape(s[1..]);
      var head := if IsQuote(s[0]) then [Backslash, s[0]] else [s[0]];
      assert Escape(s) == head + rest;
      forall i | 0 <= i < |Escape(s)| && IsQuote(Escape(s)[i])
        ensures i > 0 && Escape(s)[i - 1] == Backslash
      {
        if i >= |head| {
          assert Escape(s)[i] == rest[i - |head|];
          EscapeHead(s[1..]);
        }
      }
    }
  }

  /** A password without quotes is written unchanged. */
  lemma {:induction false} EscapeWithoutQuotes(s: string)
    requires forall i :: 0 <= i < |s| ==> !IsQuote(s[i])
    ensures Escape(s) == s
  {
    if s != [] { EscapeWithoutQuotes(s[1..]); }
  }

  /** Both quotes get a backslash; other characters are kept. */
  lemma EscapeExample()
    ensures Escape("a'b\"") == "a\\'b\\\""
  {
    assert Escape("b\"") == "b\\\"";
  }

  /** Escaping is not idempotent: a second pass escapes the quote of `\'` again. */
  lemma EscapeTwiceDiffers()
    ensures Escape(Escape("'")) == "\\\\'" && Escape(Escape("'")) != Escape("'")
  {
  }

  const AllVars: string := "[all:vars]\n"
  const SysmgrUser: string := "ansible_user=sysmgr\n"
  const AppServer: string := "\n\n[appserver]\n"

  /** The header written when the inventory file is created. */
  const Header: seq<string> := [AllVars, SysmgrUser, AppServer]

  /** The text written before the escaped password on a host's line. */
  function LinePrefix(host: string, ip: string): string
  {
    host + "  ansible_host=" + ip + "  ansible_password=\"'"
  }

  /** The inventory line for `host` at address `ip` with the credential read from the portal. */
  function InventoryLine(host: string, ip: string, credential: string): string
  {
    LinePrefix(host, ip) + EscapeAsWritten(credential) + "'\"  # credential => " + credential + "\n"
  }

  /** Where the parts of a concatenation `a + b + c` sit. */
  lemma ConcatParts(a: string, b: string, c: string)
    ensures |a + b + c| == |a| + |b| + |c|
    ensures (a + b + c)[..|a|] == a
    ensures (a + b + c)[|a|..|a| + |b|] == b
    ensures (a + b + c)[|a| + |b|..] == c
  {
  }

  /**
   * A line starts with the host and its address, embeds the escaped password
   * between `"'` and `'"` so that unescaping recovers the credential, and ends
   * with the raw credential after `# credential => `.
   */
  lemma {:induction false} InventoryLineFields(host: string, ip: string, credential: string)
    ensures InventoryLine(host, ip, credential)[..|host|] == host
    ensures var p, e := |LinePrefix(host, ip)|, |Escape(credential)|;
            p + e + 2 <= |InventoryLine(host, ip, credential)| &&
            Unescape(InventoryLine(host, ip, credential)[p..p + e]) == credential &&
            InventoryLine(host, ip, credential)[p + e..p + e + 2] == "'\""
    ensures var line := InventoryLine(host, ip, credential);
            line[|line| - |credential| - 1..] == credential + "\n"
  {
    var pre := LinePrefix(host, ip);
    var esc := Escape(credential);
    var mid := "'\"  # credential => ";
    var tail := credential + "\n";
    var line := InventoryLine(host, ip, credential);
    EscapeAsWrittenIsEscape(credential);
    assert line == pre + esc + (mid + tail);
    ConcatParts(pre, esc, mid + tail);
    ConcatParts(host, "  ansible_host=" + ip, "  ansible_password=\"'");
    assert (mid + tail)[..2] == "'\"";
    assert line[|pre| + |esc|..|pre| + |esc| + 2] == (mid + tail)[..2];
    assert line[|line| - |tail|..] == tail;
    UnescapeEscape(credential);
  }
}
