/** Sandbox addresses in Host headers: the authority clients build, and the three readers of it
    in the proxy and on the node. */
module Routing {

  datatype Result<T> = Ok(value: T) | Err

  // ---- Searching strings ----

  function Index(s: string, c: char): (i: int)
    ensures i < 0 ==> c !in s
    ensures i >= 0 ==> i < |s| && s[i] == c && c !in s[..i]
  {
    if s == "" then -1
    else if s[0] == c then 0
    else
      var i := Index(s[1..], c);
      assert i >= 0 ==> s[..i + 1] == [s[0]] + s[1..][..i];
      if i < 0 then -1 else i + 1
  }

  function LastIndex(s: string, c: char): (i: int)
    ensures i < 0 ==> c !in s
    ensures i >= 0 ==> i < |s| && s[i] == c && c !in s[i + 1..]
  {
    if s == "" then -1
    else
      var n := |s| - 1;
      assert s == s[..n] + [s[n]];
      if s[n] == c then n
      else
        var i := LastIndex(s[..n], c);
        assert i >= 0 ==> s[i + 1..] == s[..n][i + 1..] + [s[n]];
        i
  }

  lemma IndexIs(s: string, c: char, i: nat)
    requires i < |s| && s[i] == c && c !in s[..i]
    ensures Index(s, c) == i
  {}

  lemma LastIndexIs(s: string, c: char, i: nat)
    requires i < |s| && s[i] == c && c !in s[i + 1..]
    ensures LastIndex(s, c) == i
  {}

  // ---- The standard library's parts ----

  /** The host of a host:port pair. The port follows the last colon; an address with several
      colons must be bracketed, and stray brackets are errors. */
  function SplitHostPort(s: string): Result<string> {
    var i := LastIndex(s, ':');
    if i < 0 then Err
    else if s[0] == '[' then
      var end := Index(s, ']');
      if end < 0 || end + 1 != i then Err
      else if '[' in s[1..] || ']' in s[end + 1..] then Err
      else Ok(s[1..end])
    else if ':' in s[..i] || '[' in s || ']' in s then Err
    else Ok(s[..i])
  }

  const MAX_INT := 0x7FFF_FFFF_FFFF_FFFF

  predicate Digit(c: char) { '0' <= c <= '9' }

  predicate AllDigits(s: string) { forall i :: 0 <= i < |s| ==> Digit(s[i]) }

  function Value(s: string): nat
    requires AllDigits(s)
  {
    if s == "" then 0 else Value(s[..|s| - 1]) * 10 + (s[|s| - 1] as int - '0' as int)
  }

  /** A decimal integer, with an optional sign, that fits the machine's 64 bits. */
  function Atoi(s: string): Result<int> {
    var negative := s != "" && s[0] == '-';
    var digits := if s != "" && (s[0] == '-' || s[0] == '+') then s[1..] else s;
    if digits == "" || !AllDigits(digits) then Err
    else
      var n := if negative then 0 - Value(digits) else Value(digits);
      if -MAX_INT - 1 <= n <= MAX_INT then Ok(n) else Err
  }

  function Digits(n: nat): (s: string)
    ensures s != "" && AllDigits(s)
  {
    if n < 10 then ['0' + n as char] else Digits(n / 10) + ['0' + (n % 10) as char]
  }

  function Itoa(n: int): string {
    if n < 0 then "-" + Digits(-n) else Digits(n)
  }

  lemma {:induction false} DigitsValue(n: nat)
    ensures Value(Digits(n)) == n
  {
    if n >= 10 {
      DigitsValue(n / 10);
      assert Digits(n)[..|Digits(n)| - 1] == Digits(n / 10);
    } else {
      assert Digits(n)[..0] == "" && Value("") == 0;
    }
  }

  // ---- The authority and its readers ----

  function Authority(port: int, id: string, domain: string): string {
    var name := Itoa(port) + "-" + id;
    if domain == "" then name else name + "." + domain
  }

  /** The first label of the host, without a listener port. */
  function Label(host: string): string {
    var h := match SplitHostPort(host) case Ok(h) => h case Err => host;
    var dot := Index(h, '.');
    if dot >= 0 then h[..dot] else h
  }

  /** The node's reader. */
  function ParseSandboxHost(host: string): Result<(string, int)> {
    var name := Label(host);
    var dash := Index(name, '-');
    if dash < 0 || dash == 0 || name[dash + 1..] == "" then Err
    else
      match Atoi(name[..dash])
      case Err => Err
      case Ok(p) => if p < 1 || p > 65535 then Err else Ok((name[dash + 1..], p))
  }

  /** The proxy's reader of the sandbox. */
  function SandboxIDFromHost(host: string): Result<string> {
    var name := Label(host);
    var dash := Index(name, '-');
    if dash < 0 || name[dash + 1..] == "" then Err
    else
      match Atoi(name[..dash])
      case Err => Err
      case Ok(p) => if p < 1 || p > 65535 then Err else Ok(name[dash + 1..])
  }

  /** The proxy's reader of the port, which picks the protocol. */
  function PortFromHost(host: string): int {
    var name := Label(host);
    var dash := Index(name, '-');
    if dash < 0 then 0 else match Atoi(name[..dash]) case Err => 0 case Ok(p) => p
  }

  /** The proxy and the node accept the same hosts and read the same sandbox and port off them. */
  lemma ReadersAgree(host: string, id: string, port: int)
    ensures ParseSandboxHost(host) == Ok((id, port)) <==>
              SandboxIDFromHost(host) == Ok(id) && PortFromHost(host) == port
    ensures ParseSandboxHost(host).Err? <==> SandboxIDFromHost(host).Err?
  {
    var name := Label(host);
    assert Index(name, '-') == 0 ==> name[..0] == "";
  }

  lemma DashAfter(text: string, id: string)
    requires '-' !in text
    ensures var name := text + "-" + id;
            Index(name, '-') == |text| && name[..|text|] == text && name[|text| + 1..] == id
  {
    var name := text + "-" + id;
    assert name[..|text|] == text && name[|text| + 1..] == id;
    IndexIs(name, '-', |text|);
  }

  lemma AroundDash(name: string)
    requires '-' in name
    ensures var dash := Index(name, '-'); name == name[..dash] + "-" + name[dash + 1..]
  {}

  /** A host is accepted exactly when its label is a port in range, a dash and a sandbox. */
  lemma AcceptedIff(host: string, id: string, port: int)
    ensures ParseSandboxHost(host) == Ok((id, port)) <==>
              && id != "" && 1 <= port <= 65535
              && exists text: string :: Names(host, text, id) && Atoi(text) == Ok(port)
  {
    var name := Label(host);
    var dash := Index(name, '-');
    if ParseSandboxHost(host) == Ok((id, port)) {
      AroundDash(name);
      assert Names(host, name[..dash], id);
    }
    if text: string :| Names(host, text, id) && Atoi(text) == Ok(port) {
      DashAfter(text, id);
    }
  }

  predicate Names(host: string, text: string, id: string) {
    '-' !in text && Label(host) == text + "-" + id
  }

  // ---- Reading back what was built ----

  /** The one colon of the authority stands in the sandbox id, and no bracket disarms it. */
  predicate ColonCutsId(id: string, domain: string) {
    && ':' in id && Index(id, ':') == LastIndex(id, ':') && ':' !in domain
    && '[' !in id && ']' !in id && '[' !in domain && ']' !in domain
  }

  function Name(port: nat, id: string): string {
    Digits(port) + "-" + id
  }

  lemma NameHasNo(port: nat, id: string, c: char)
    requires !Digit(c) && c != '-' && c !in id
    ensures c !in Name(port, id)
  {}

  lemma UpToDot(h: string, name: string)
    requires '.' !in name && (h == name || name + "." <= h)
    ensures var dot := Index(h, '.'); (if dot >= 0 then h[..dot] else h) == name
  {
    if h != name {
      assert h[..|name|] == name && h[|name|] == '.';
      IndexIs(h, '.', |name|);
    }
  }

  /** When the host is not cut inside the id, the label is the whole name. */
  lemma LabelWhole(port: nat, id: string, domain: string)
    requires '.' !in id && !ColonCutsId(id, domain)
    ensures Label(Authority(port, id, domain)) == Name(port, id)
  {
    var name, host := Name(port, id), Authority(port, id, domain);
    NameHasNo(port, id, '.');
    assert Digit(host[0]);
    if SplitHostPort(host).Ok? {
      var i := LastIndex(host, ':');
      ColonIsPast(port, id, domain, i);
      UpToDot(host[..i], name);
    } else {
      UpToDot(host, name);
    }
  }

  function Suffix(domain: string): string {
    if domain == "" then "" else "." + domain
  }

  /** The authority by position. */
  lemma AuthorityParts(port: nat, id: string, domain: string)
    ensures var host, at := Authority(port, id, domain), |Digits(port)| + 1;
            && host == Digits(port) + "-" + id + Suffix(domain)
            && |host| == at + |id| + |Suffix(domain)|
            && host[..at] == Digits(port) + "-" && host[at..at + |id|] == id && host[at + |id|..] == Suffix(domain)
  {
    var name := Name(port, id);
    assert name + "" == name && name + "." + domain == name + ("." + domain);
  }

  predicate LoneColon(host: string, i: nat) {
    && i < |host| && host[i] == ':' && (forall j :: 0 <= j < |host| && j != i ==> host[j] != ':')
    && '[' !in host && ']' !in host
  }

  lemma Between(a: string, b: string, c: string)
    ensures forall j :: 0 <= j < |b| ==> (a + b + c)[|a| + j] == b[j]
    ensures forall j :: 0 <= j < |c| ==> (a + b + c)[|a| + |b| + j] == c[j]
  {}

  lemma ColonWithin(a: string, id: string, d: string, k: nat)
    requires k < |id| && LoneColon(a + id + d, |a| + k)
    ensures id[k] == ':' && ':' !in id[..k] && ':' !in id[k + 1..] && ':' !in d
    ensures '[' !in id && ']' !in id && '[' !in d && ']' !in d
  {
    Between(a, id, d);
  }

  lemma ColonInId(port: nat, id: string, domain: string, k: nat)
    requires k < |id| && LoneColon(Authority(port, id, domain), |Digits(port)| + 1 + k)
    ensures ColonCutsId(id, domain)
  {
    AuthorityParts(port, id, domain);
    ColonWithin(Digits(port) + "-", id, Suffix(domain), k);
    IndexIs(id, ':', k);
    LastIndexIs(id, ':', k);
    assert forall c :: c in domain ==> c in Suffix(domain);
  }

  /** A lone colon that does not cut the id stands in the domain. */
  lemma ColonIsPast(port: nat, id: string, domain: string, i: nat)
    requires LoneColon(Authority(port, id, domain), i) && !ColonCutsId(id, domain)
    ensures domain != "" && Name(port, id) + "." <= Authority(port, id, domain)[..i]
  {
    var a := Digits(port) + "-";
    AuthorityParts(port, id, domain);
    if |a| <= i < |a| + |id| { ColonInId(port, id, domain, i - |a|); }
    PastTheMiddle(a, id, Suffix(domain), i);
  }

  /** A colon that is neither in `a` nor in `b` is in `c`. */
  lemma PastTheMiddle(a: string, b: string, c: string, i: nat)
    requires i < |a + b + c| && (a + b + c)[i] == ':' && ':' !in a && !(|a| <= i < |a| + |b|)
    requires c != "" ==> c[0] == '.'
    ensures c != "" && (a + b) + "." <= (a + b + c)[..i]
  {
    var s := a + b + c;
    assert s[..|a|] == a;
    assert forall j :: 0 <= j < |a| ==> s[j] == a[j] && a[j] in a;
    assert s[i] == c[i - |a| - |b|];
    assert s[..|a| + |b|] == a + b && s[|a| + |b|] == '.';
  }

  lemma LabelCut(port: nat, id: string, domain: string)
    requires '.' !in id && ColonCutsId(id, domain)
    ensures Label(Authority(port, id, domain)) == Name(port, id[..Index(id, ':')])
  {
    CutIsAlone(port, id, domain);
    NameHasNo(port, id[..Index(id, ':')], '.');
    LabelOfLone(Authority(port, id, domain), |Digits(port)| + 1 + Index(id, ':'), Name(port, id[..Index(id, ':')]));
  }

  lemma LabelOfLone(host: string, i: nat, cut: string)
    requires LoneColon(host, i) && host[0] != '[' && cut == host[..i] && '.' !in cut
    ensures Label(host) == cut
  {
    SplitAtColon(host, i);
  }

  lemma SplitAtColon(host: string, i: nat)
    requires LoneColon(host, i) && host[0] != '['
    ensures SplitHostPort(host) == Ok(host[..i])
  {
    LastIndexIs(host, ':', i);
  }

  lemma NoneInAuthority(port: nat, id: string, domain: string, c: char)
    requires !Digit(c) && c != '-' && c != '.' && c !in id && c !in domain
    ensures c !in Authority(port, id, domain)
  {
    NameHasNo(port, id, c);
  }

  lemma AroundColon(port: nat, id: string, domain: string, k: nat)
    requires k < |id| && id[k] == ':'
    ensures Authority(port, id, domain) == Name(port, id[..k]) + ":" + (id[k + 1..] + Suffix(domain))
  {
    var a, b, c, d := Digits(port) + "-", id[..k], id[k + 1..], Suffix(domain);
    AuthorityParts(port, id, domain);
    assert id == b + ":" + c;
    Rebracket(a, b, c, d);
  }

  lemma Rebracket(a: string, b: string, c: string, d: string)
    ensures a + (b + ":" + c) + d == (a + b) + ":" + (c + d)
  {}

  lemma LoneBetween(a: string, b: string)
    requires ':' !in a && ':' !in b && '[' !in a + ":" + b && ']' !in a + ":" + b
    ensures LoneColon(a + ":" + b, |a|) && (a + ":" + b)[..|a|] == a
  {
    assert (a + ":" + b)[..|a|] == a && (a + ":" + b)[|a| + 1..] == b;
  }

  lemma CutIsAlone(port: nat, id: string, domain: string)
    requires ColonCutsId(id, domain)
    ensures var host, i := Authority(port, id, domain), |Digits(port)| + 1 + Index(id, ':');
            LoneColon(host, i) && host[..i] == Name(port, id[..Index(id, ':')]) && host[0] != '['
  {
    var k := Index(id, ':');
    AroundColon(port, id, domain, k);
    NoneInAuthority(port, id, domain, '[');
    NoneInAuthority(port, id, domain, ']');
    NameHasNo(port, id[..k], ':');
    LoneBetween(Name(port, id[..k]), id[k + 1..] + Suffix(domain));
  }

  lemma ReadName(host: string, port: nat, id: string)
    requires Label(host) == Name(port, id) && 1 <= port <= 65535
    ensures ParseSandboxHost(host) == if id == "" then Err else Ok((id, port))
  {
    DashAfter(Digits(port), id);
    DigitsValue(port);
  }

  /** Reading undoes building exactly when the port is in range and the id is non-empty, has no
      dot, and is not cut at a lone colon. */
  lemma RoundTrip(port: int, id: string, domain: string)
    ensures ParseSandboxHost(Authority(port, id, domain)) == Ok((id, port)) <==>
              1 <= port <= 65535 && id != "" && '.' !in id && !ColonCutsId(id, domain)
  {
    var host := Authority(port, id, domain);
    if ParseSandboxHost(host) == Ok((id, port)) {
      IdHasNoDot(host, id, port);
    }
    if 1 <= port <= 65535 && id != "" && '.' !in id {
      if ColonCutsId(id, domain) {
        LabelCut(port, id, domain);
        ReadName(host, port, id[..Index(id, ':')]);
      } else {
        LabelWhole(port, id, domain);
        ReadName(host, port, id);
      }
    }
  }

  lemma IdHasNoDot(host: string, id: string, port: int)
    requires ParseSandboxHost(host) == Ok((id, port))
    ensures '.' !in id
  {
    var name := Label(host);
    assert '.' !in name;
    assert forall c :: c in name[Index(name, '-') + 1..] ==> c in name;
  }

  /** An id cut at its colon is read as another sandbox, or not at all. */
  lemma CutIdNamesAnother(port: nat, id: string, domain: string)
    requires 1 <= port <= 65535 && '.' !in id && ColonCutsId(id, domain)
    ensures var cut := id[..Index(id, ':')];
            ParseSandboxHost(Authority(port, id, domain)) == if cut == "" then Err else Ok((cut, port))
  {
    LabelCut(port, id, domain);
    ReadName(Authority(port, id, domain), port, id[..Index(id, ':')]);
  }

  lemma ColonExample()
    ensures ParseSandboxHost(Authority(80, "a:b", "")) == Ok(("a", 80))
  {
    IndexIs("a:b", ':', 1);
    LastIndexIs("a:b", ':', 1);
    CutIdNamesAnother(80, "a:b", "");
    assert "a:b"[..1] == "a";
  }
}
