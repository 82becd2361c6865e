/** What the Host-header readers take a host, a port and a number to be. */
module Hosts {
  import opened Routing

  // ---- host:port ----

  predicate Plain(s: string) {
    ':' !in s && '[' !in s && ']' !in s
  }

  /** `s` is the host with a port behind a colon; a host in brackets may have colons itself. */
  predicate Pair(s: string, host: string, port: string) {
    && Plain(port)
    && ((s == host + ":" + port && Plain(host))
        || (s == "[" + host + "]:" + port && '[' !in host && ']' !in host))
  }

  lemma BracketedParts(s: string, end: nat)
    requires 0 < end && end + 1 < |s| && s[0] == '[' && s[end] == ']' && s[end + 1] == ':'
    ensures s == "[" + s[1..end] + "]:" + s[end + 2..]
    ensures forall c :: c in s[1..end] ==> c in s[1..] && c in s[..end]
    ensures forall c :: c in s[end + 2..] ==> c in s[1..] && c in s[end + 1..]
  {}

  lemma PlainParts(s: string, i: nat)
    requires i < |s| && s[i] == ':'
    ensures s == s[..i] + ":" + s[i + 1..]
    ensures forall c :: c in s[..i] || c in s[i + 1..] ==> c in s
  {}

  lemma SplitFinds(s: string, host: string)
    requires SplitHostPort(s) == Ok(host)
    ensures Pair(s, host, s[LastIndex(s, ':') + 1..])
  {
    if s[0] == '[' {
      BracketedParts(s, Index(s, ']'));
    } else {
      PlainParts(s, LastIndex(s, ':'));
    }
  }

  lemma SplitPlain(host: string, port: string)
    requires Plain(host) && Plain(port)
    ensures SplitHostPort(host + ":" + port) == Ok(host)
  {
    var s := host + ":" + port;
    assert s[..|host|] == host && s[|host| + 1..] == port;
    LastIndexIs(s, ':', |host|);
  }

  lemma SplitBracketed(host: string, port: string)
    requires '[' !in host && ']' !in host && Plain(port)
    ensures SplitHostPort("[" + host + "]:" + port) == Ok(host)
  {
    var s, end := "[" + host + "]:" + port, |host| + 1;
    BracketedSlices(host, port);
    LastIndexIs(s, ':', end + 1);
    IndexIs(s, ']', end);
    NoBrackets(host, port);
  }

  lemma BracketedSlices(host: string, port: string)
    ensures var s, end := "[" + host + "]:" + port, |host| + 1;
            && |s| > end + 1 && s[0] == '[' && s[end] == ']' && s[end + 1] == ':'
            && s[..end] == "[" + host && s[1..end] == host && s[1..] == host + ("]:" + port)
            && s[end + 1..] == ":" + port && s[end + 2..] == port
  {}

  lemma NoBrackets(host: string, port: string)
    requires '[' !in host && '[' !in port && ']' !in port
    ensures '[' !in host + ("]:" + port) && ']' !in ":" + port
  {}

  /** The host of a pair is found exactly when there is one. */
  lemma SplitIff(s: string, host: string)
    ensures SplitHostPort(s) == Ok(host) <==> exists port: string :: Pair(s, host, port)
  {
    if SplitHostPort(s) == Ok(host) { SplitFinds(s, host); }
    if port: string :| Pair(s, host, port) {
      if Plain(host) && s == host + ":" + port {
        SplitPlain(host, port);
      } else {
        SplitBracketed(host, port);
      }
    }
  }

  lemma SameLabel(host: string, port: string)
    requires Plain(host) && Plain(port)
    ensures Label(host + ":" + port) == Label(host)
  {
    SplitPlain(host, port);
    assert SplitHostPort(host).Err? by { assert LastIndex(host, ':') < 0; }
  }

  /** The port of the listener a client connected to makes no difference to the sandbox and the port
      it asked for. */
  lemma ListenerPortIsIgnored(host: string, port: string)
    requires Plain(host) && Plain(port)
    ensures ParseSandboxHost(host + ":" + port) == ParseSandboxHost(host)
    ensures PortFromHost(host + ":" + port) == PortFromHost(host)
    ensures SandboxIDFromHost(host + ":" + port) == SandboxIDFromHost(host)
  {
    SameLabel(host, port);
  }

  // ---- Numbers ----

  /** A sign and digits that stand for `n`. */
  predicate Denotes(sign: string, digits: string, n: int) {
    && sign in {"", "+", "-"} && digits != "" && AllDigits(digits)
    && n == if sign == "-" then 0 - Value(digits) else Value(digits)
  }

  lemma SignedDigits(sign: string, digits: string)
    requires sign in {"", "+", "-"} && digits != "" && AllDigits(digits)
    ensures var s := sign + digits;
            && s != "" && (s[0] == '-' <==> sign == "-") && (s[0] == '+' <==> sign == "+")
            && s[|sign|..] == digits
  {
    assert Digit(digits[0]);
  }

  predicate FitsWord(n: int) {
    -9223372036854775808 <= n <= 9223372036854775807
  }

  lemma AtoiReads(sign: string, digits: string, n: int)
    requires Denotes(sign, digits, n)
    ensures Atoi(sign + digits) == if FitsWord(n) then Ok(n) else Err
  {
    SignedDigits(sign, digits);
    if sign == "" { assert sign + digits == digits; }
  }

  lemma AtoiDenotes(s: string, n: int)
    requires Atoi(s) == Ok(n)
    ensures FitsWord(n) && Reads(s, n)
  {
    if s[0] == '-' {
      assert s == "-" + s[1..];
      assert Denotes("-", s[1..], n);
    } else if s[0] == '+' {
      assert s == "+" + s[1..];
      assert Denotes("+", s[1..], n);
    } else {
      assert s == "" + s;
      assert Denotes("", s, n);
    }
  }

  /** `s` is a sign, or none, and digits that stand for `n`. */
  ghost predicate Reads(s: string, n: int) {
    exists sign: string, digits: string :: s == sign + digits && Denotes(sign, digits, n)
  }

  /** A number is read exactly when it is digits with at most one sign and fits 64 bits. */
  lemma AtoiIff(s: string, n: int)
    ensures Atoi(s) == Ok(n) <==> FitsWord(n) && Reads(s, n)
  {
    if Atoi(s) == Ok(n) { AtoiDenotes(s, n); }
    if sign: string, digits: string :| s == sign + digits && Denotes(sign, digits, n) {
      AtoiReads(sign, digits, n);
    }
  }

  /** Printing and reading a number gives it back whenever it fits. */
  lemma AtoiItoa(n: int)
    ensures Atoi(Itoa(n)) == if FitsWord(n) then Ok(n) else Err
  {
    if n < 0 {
      DigitsValue(-n);
      AtoiReads("-", Digits(-n), n);
    } else {
      DigitsValue(n);
      AtoiReads("", Digits(n), n);
      assert "" + Digits(n) == Digits(n);
    }
  }

  lemma PortReads(host: string, text: string, rest: string)
    requires Names(host, text, rest) && Atoi(text).Ok?
    ensures Ok(PortFromHost(host)) == Atoi(text)
  {
    DashAfter(text, rest);
  }

  lemma PortNames(host: string)
    requires PortFromHost(host) != 0
    ensures HasPort(host, PortFromHost(host))
  {
    var name := Label(host);
    var dash := Index(name, '-');
    AroundDash(name);
    assert Names(host, name[..dash], name[dash + 1..]);
  }

  /** The label is a number, a dash and something. */
  ghost predicate HasPort(host: string, port: int) {
    exists text: string, rest: string :: Names(host, text, rest) && Atoi(text) == Ok(port)
  }

  /** The proxy's port is whatever number stands before the first dash of the label, and 0 when there
      is none. */
  lemma PortIff(host: string, port: int)
    requires port != 0
    ensures PortFromHost(host) == port <==> HasPort(host, port)
  {
    if PortFromHost(host) == port { PortNames(host); }
    if text: string, rest: string :| Names(host, text, rest) && Atoi(text) == Ok(port) {
      PortReads(host, text, rest);
    }
  }
}
