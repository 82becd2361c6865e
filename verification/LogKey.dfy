/** Build log keys: a reference made into one path segment. Which references share a key. */
module LogKey {

  datatype Result = Ok(key: string) | Err

  predicate Plain(c: char) {
    'a' <= c <= 'z' || 'A' <= c <= 'Z' || '0' <= c <= '9' || c == '-' || c == '_'
  }

  predicate AllPlain(s: string) { forall i :: 0 <= i < |s| ==> Plain(s[i]) }

  function HexDigit(d: nat): char
    requires d < 16
  {
    if d < 10 then '0' + d as char else 'a' + (d - 10) as char
  }

  predicate IsHex(c: char) { '0' <= c <= '9' || 'a' <= c <= 'f' }

  /** Lower-case hexadecimal, without leading zeros. */
  function Hex(n: nat): (s: string)
    ensures s != "" && forall i :: 0 <= i < |s| ==> IsHex(s[i])
  {
    if n < 16 then [HexDigit(n)] else Hex(n / 16) + [HexDigit(n % 16)]
  }

  function Escape(c: char): (s: string)
    ensures s != "" && AllPlain(s)
  {
    if Plain(c) then [c] else "_" + Hex(c as int)
  }

  function Key(ref: string): string {
    if ref == "" then "" else Escape(ref[0]) + Key(ref[1..])
  }

  /** Every reference but the empty one has a key. */
  method BuildLogKey(ref: string) returns (r: Result)
    ensures r == if ref == "" then Err else Ok(Key(ref))
  {
    if ref == "" { return Err; }
    var b := "";
    for i := 0 to |ref|
      invariant b == Key(ref[..i])
    {
      KeyExtends(ref, i);
      b := b + Escape(ref[i]);
    }
    assert ref[..|ref|] == ref;
    return Ok(b);
  }

  // ---- One segment ----

  lemma {:induction false} KeyIsPlain(ref: string)
    ensures AllPlain(Key(ref)) && (Key(ref) == "" <==> ref == "")
    ensures '/' !in Key(ref) && '.' !in Key(ref) && ':' !in Key(ref) && '@' !in Key(ref) && '%' !in Key(ref)
    decreases |ref|
  {
    if ref != "" { KeyIsPlain(ref[1..]); }
  }

  /** Letters, digits, dashes and underscores are kept, and nothing else is. */
  lemma KeptIff(c: char)
    ensures Key([c]) == [c] <==>
            'a' <= c <= 'z' || 'A' <= c <= 'Z' || '0' <= c <= '9' || c == '-' || c == '_'
  {
    KeyOfOne(c);
  }

  lemma {:induction false} KeyAppend(a: string, b: string)
    ensures Key(a + b) == Key(a) + Key(b)
    decreases |a|
  {
    if a == "" {
      assert a + b == b && "" + Key(b) == Key(b);
    } else {
      assert (a + b)[0] == a[0] && (a + b)[1..] == a[1..] + b;
      KeyAppend(a[1..], b);
      assert Escape(a[0]) + (Key(a[1..]) + Key(b)) == (Escape(a[0]) + Key(a[1..])) + Key(b);
    }
  }

  lemma KeyOfOne(c: char)
    ensures Key([c]) == Escape(c)
  {
    assert [c][1..] == "" && Escape(c) + "" == Escape(c);
  }

  lemma KeyExtends(ref: string, i: nat)
    requires i < |ref|
    ensures Key(ref[..i + 1]) == Key(ref[..i]) + Escape(ref[i])
  {
    calc {
      Key(ref[..i + 1]);
      { assert ref[..i + 1] == ref[..i] + [ref[i]]; }
      Key(ref[..i] + [ref[i]]);
      { KeyAppend(ref[..i], [ref[i]]); }
      Key(ref[..i]) + Key([ref[i]]);
      { KeyOfOne(ref[i]); }
      Key(ref[..i]) + Escape(ref[i]);
    }
  }

  lemma {:induction false} PlainIsItsKey(s: string)
    requires AllPlain(s)
    ensures Key(s) == s
    decreases |s|
  {
    if s != "" {
      PlainIsItsKey(s[1..]);
      assert s == [s[0]] + s[1..];
    }
  }

  // ---- Which references share a key ----

  ghost predicate Shares(ref: string, other: string) { other != ref && Key(other) == Key(ref) }

  predicate Escaped(ref: string, i: nat) { i < |ref| && !Plain(ref[i]) }

  predicate LooksEscaped(ref: string, i: nat) { i + 1 < |ref| && ref[i] == '_' && IsHex(ref[i + 1]) }

  ghost predicate HasTwin(ref: string) { exists other: string :: Shares(ref, other) }

  /** A reference shares its key with another one exactly when it has a character to escape, or an
      underscore before a hexadecimal digit. */
  lemma SharedIff(ref: string)
    ensures HasTwin(ref) <==> (exists i: nat :: Escaped(ref, i)) || exists i: nat :: LooksEscaped(ref, i)
  {
    if i: nat :| Escaped(ref, i) {
      EscapedHasTwin(ref, i);
    } else if i: nat :| LooksEscaped(ref, i) {
      LookalikeHasTwin(ref, i);
    } else {
      SafeHasNoTwin(ref);
    }
  }

  lemma EscapedHasTwin(ref: string, i: nat)
    requires Escaped(ref, i)
    ensures HasTwin(ref)
  {
    EscapedIsShared(ref, i);
  }

  lemma LookalikeHasTwin(ref: string, i: nat)
    requires LooksEscaped(ref, i)
    ensures HasTwin(ref)
  {
    LookalikeIsShared(ref, i);
  }

  lemma SafeHasNoTwin(ref: string)
    requires !exists i: nat :: Escaped(ref, i)
    requires !exists i: nat :: LooksEscaped(ref, i)
    ensures !HasTwin(ref)
  {
    forall other: string ensures !Shares(ref, other) {
      SafeIsAlone(ref, other);
    }
  }

  /** Replacing a stretch by one with the same key keeps the key. */
  lemma SameKey(ref: string, a: string, b: string, c: string, d: string)
    requires ref == a + b + d && Key(b) == Key(c) && |b| != |c|
    ensures Shares(ref, a + c + d)
  {
    KeyAppend(a, b);
    KeyAppend(a, c);
    KeyAppend(a + b, d);
    KeyAppend(a + c, d);
    assert |a + b + d| != |a + c + d|;
  }

  lemma EscapedIsShared(ref: string, i: nat)
    requires Escaped(ref, i)
    ensures Shares(ref, ref[..i] + Escape(ref[i]) + ref[i + 1..])
  {
    var c := ref[i];
    KeyOfOne(c);
    PlainIsItsKey(Escape(c));
    assert ref == ref[..i] + [c] + ref[i + 1..];
    SameKey(ref, ref[..i], [c], Escape(c), ref[i + 1..]);
  }

  lemma LookalikeKey(c: char)
    requires IsHex(c)
    ensures Key(['_', c]) == Key([CodeOf(c) as char])
  {
    PlainIsItsKey(['_', c]);
    KeyOfOne(CodeOf(c) as char);
  }

  lemma AroundTwo(ref: string, i: nat)
    requires i + 1 < |ref|
    ensures ref == ref[..i] + [ref[i], ref[i + 1]] + ref[i + 2..]
  {}

  lemma LookalikeIsShared(ref: string, i: nat)
    requires LooksEscaped(ref, i)
    ensures Shares(ref, ref[..i] + [CodeOf(ref[i + 1]) as char] + ref[i + 2..])
  {
    var two, one := ['_', ref[i + 1]], [CodeOf(ref[i + 1]) as char];
    LookalikeKey(ref[i + 1]);
    AroundTwo(ref, i);
    SameKey(ref, ref[..i], two, one, ref[i + 2..]);
  }

  function CodeOf(c: char): (d: nat)
    requires IsHex(c)
    ensures d < 16 && Hex(d) == [c]
  {
    if '0' <= c <= '9' then c as int - '0' as int else c as int - 'a' as int + 10
  }

  lemma PlainUnlessEscaped(s: string)
    requires !exists i: nat :: Escaped(s, i)
    ensures AllPlain(s)
  {
    forall i | 0 <= i < |s| ensures Plain(s[i]) {
      assert !Escaped(s, i);
    }
  }

  lemma SafeIsAlone(ref: string, other: string)
    requires !exists i: nat :: Escaped(ref, i)
    requires !exists i: nat :: LooksEscaped(ref, i)
    ensures !Shares(ref, other)
  {
    PlainUnlessEscaped(ref);
    PlainIsItsKey(ref);
    if i: nat :| Escaped(other, i) {
      EscapeShows(other, i);
    } else {
      PlainUnlessEscaped(other);
      PlainIsItsKey(other);
    }
  }

  lemma EscapeShows(ref: string, i: nat)
    requires Escaped(ref, i)
    ensures LooksEscaped(Key(ref), |Key(ref[..i])|)
  {
    var a, c, d := ref[..i], ref[i], ref[i + 1..];
    KeyOfOne(c);
    assert ref == a + [c] + d;
    KeyAppend(a, [c]);
    KeyAppend(a + [c], d);
    assert Key(ref) == Key(a) + ("_" + Hex(c as int)) + Key(d);
  }

  /** Two references with one key. */
  lemma SharedExample()
    ensures Shares("a/b", "a_2fb")
  {
    EscapedIsShared("a/b", 1);
    assert Hex(0x2f) == "2f";
    assert "a/b"[..1] + Escape('/') + "a/b"[2..] == "a_2fb";
  }

  // ---- References without underscores ----

  /** A character that is kept and is no underscore, or whose code has two hexadecimal digits. */
  predicate Steady(c: char) {
    if Plain(c) then c != '_' else 0x10 <= c as int <= 0xff
  }

  predicate AllSteady(s: string) { forall i :: 0 <= i < |s| ==> Steady(s[i]) }

  lemma TwoDigits(c: char)
    requires !Plain(c) && Steady(c)
    ensures Escape(c) == ['_', HexDigit(c as int / 16), HexDigit(c as int % 16)]
  {
    assert Hex(c as int / 16) == [HexDigit(c as int / 16)];
  }

  lemma OnlyEmptyIsEmpty(ref: string)
    ensures Key(ref) == "" <==> ref == ""
  {
    if ref != "" { assert |Key(ref)| >= |Escape(ref[0])|; }
  }

  /** Image references without underscores, and all text like them, have keys of their own. */
  lemma {:induction false} SteadyAreDistinct(a: string, b: string)
    requires AllSteady(a) && AllSteady(b) && Key(a) == Key(b)
    ensures a == b
    decreases |a|
  {
    OnlyEmptyIsEmpty(a);
    OnlyEmptyIsEmpty(b);
    if a != "" {
      var s, t := a[1..], b[1..];
      SteadyTail(a);
      SteadyTail(b);
      SameEscape(a[0], b[0], Key(s), Key(t));
      SteadyAreDistinct(s, t);
      SameText(a, b);
    }
  }

  lemma SteadyTail(a: string)
    requires AllSteady(a) && a != ""
    ensures Steady(a[0]) && AllSteady(a[1..]) && Key(a) == Escape(a[0]) + Key(a[1..])
  {}

  lemma SameText(a: string, b: string)
    requires a != "" && b != "" && a[0] == b[0] && a[1..] == b[1..]
    ensures a == b
  {
    assert a == [a[0]] + a[1..] && b == [b[0]] + b[1..];
  }

  lemma SameEscape(c: char, d: char, s: string, t: string)
    requires Steady(c) && Steady(d) && Escape(c) + s == Escape(d) + t
    ensures c == d && s == t
  {
    var key := Escape(c) + s;
    assert key[0] == Escape(c)[0] && key[0] == Escape(d)[0];
    if Plain(c) {
      assert key[1..] == s && key[1..] == t;
    } else {
      TwoDigits(c);
      TwoDigits(d);
      assert key[1] == Escape(c)[1] && key[1] == Escape(d)[1];
      assert key[2] == Escape(c)[2] && key[2] == Escape(d)[2];
      assert key[3..] == s && key[3..] == t;
      assert c as int == d as int;
    }
  }
}
