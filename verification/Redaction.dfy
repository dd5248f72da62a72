/**
 Redaction of diagnostics: known secrets are replaced first, then the text is
 withheld altogether unless its JSON encoding is free of them. Text is a sequence
 of code points, lone surrogates included, as Python strings are.
 */
module Redaction {

  type Code = c: nat | c < 0x110000

  type Text = seq<Code>

  function Codes(s: string): (r: Text)
    ensures |r| == |s|
  {
    seq(|s|, i requires 0 <= i < |s| => s[i] as int)
  }

  const REDACTED := Codes("[redacted]")
  const WITHHELD := Codes("diagnostic-withheld")

  const QUOTE: Code := 34
  const BACKSLASH: Code := 92

  // ---------------------------------------------------------------- substrings

  predicate At(text: Text, i: nat, part: Text) {
    i + |part| <= |text| && text[i..i + |part|] == part
  }

  predicate Contains(text: Text, part: Text) {
    exists i: nat | i <= |text| :: At(text, i, part)
  }

  lemma ContainsMiddle(a: Text, part: Text, b: Text)
    ensures Contains(a + part + b, part)
  {
    assert At(a + part + b, |a|, part);
  }

  lemma ContainsWider(a: Text, text: Text, b: Text, part: Text)
    requires Contains(text, part)
    ensures Contains(a + text + b, part)
  {
    var i: nat :| i <= |text| && At(text, i, part);
    assert At(a + text + b, |a| + i, part);
  }

  lemma ContainsTail(text: Text, part: Text)
    requires text != [] && Contains(text[1..], part)
    ensures Contains(text, part)
  {
    assert text == [text[0]] + text[1..] + [];
    ContainsWider([text[0]], text[1..], [], part);
  }

  lemma AtTail(a: Text, b: Text, i: nat, part: Text)
    requires At(a + b, i, part) && i >= |a|
    ensures At(b, i - |a|, part)
  {
    assert (a + b)[i..i + |part|] == b[i - |a|..i - |a| + |part|];
  }

  lemma AtFirst(text: Text, i: nat, part: Text)
    requires At(text, i, part) && part != []
    ensures text[i] == part[0]
  {
    assert text[i..i + |part|][0] == text[i];
  }

  /** Python's replace: occurrences from the left, not overlapping. */
  function Replace(text: Text, part: Text, replacement: Text): Text
    requires part != []
    decreases |text|
  {
    if text == [] then []
    else if part <= text then replacement + Replace(text[|part|..], part, replacement)
    else [text[0]] + Replace(text[1..], part, replacement)
  }

  lemma {:induction false} ReplaceAbsent(text: Text, part: Text, replacement: Text)
    requires part != [] && !Contains(text, part)
    ensures Replace(text, part, replacement) == text
    decreases |text|
  {
    if text != [] {
      assert part <= text ==> At(text, 0, part);
      if Contains(text[1..], part) {
        ContainsTail(text, part);
      }
      ReplaceAbsent(text[1..], part, replacement);
    }
  }

  /** `p` starts inside no copy of `other`, ends inside none, and neither contains the other: an
      occurrence of `p` never touches an occurrence of `other`. */
  ghost predicate Apart(p: Text, other: Text) {
    && !Contains(other, p) && !Contains(p, other)
    && (forall k: nat | 0 < k <= |other| && k <= |p| :: other[|other| - k..] != p[..k])
    && (forall k: nat | 0 < k <= |other| && k <= |p| :: p[|p| - k..] != other[..k])
  }

  /** A tail of `p` that starts where a copy of `other` starts touches it. */
  lemma TailTouches(p: Text, j: nat, other: Text, rest: Text)
    requires other != [] && j < |p| && p[j..] <= other + rest
    ensures !Apart(p, other)
  {
    var q, k := p[j..], |p| - j;
    if k <= |other| {
      assert p[|p| - k..] == q == (other + rest)[..k] == other[..k];
    } else {
      assert other == (other + rest)[..|other|] == q[..|other|];
      assert At(p, j, other);
    }
  }

  /** An occurrence of `p` that begins inside a copy of `other` touches it. */
  lemma BeginningTouches(p: Text, i: nat, other: Text, rest: Text)
    requires p != [] && i < |other| && At(other + rest, i, p)
    ensures !Apart(p, other)
  {
    var k := |other| - i;
    if |p| <= k {
      assert other[i..i + |p|] == (other + rest)[i..i + |p|];
      assert At(other, i, p);
    } else {
      assert other[|other| - k..] == (other + rest)[i..i + |p|][..k] == p[..k];
    }
  }

  /** A tail of `p` at the start of the result was at the start of the text. */
  lemma {:induction false} PrefixKept(text: Text, part: Text, replacement: Text, p: Text, j: nat)
    requires part != [] && replacement != [] && Apart(p, replacement) && j <= |p|
    requires p[j..] <= Replace(text, part, replacement)
    ensures p[j..] <= text
    decreases |text|
  {
    if j < |p| {
      if part <= text && text != [] {
        TailTouches(p, j, replacement, Replace(text[|part|..], part, replacement));
      } else {
        assert p[j..][1..] == p[j + 1..];
        PrefixKept(text[1..], part, replacement, p, j + 1);
      }
    }
  }

  lemma {:induction false} ReplacedAt(text: Text, part: Text, replacement: Text, p: Text, i: nat)
    requires part != [] && replacement != [] && p != [] && Apart(p, replacement)
    requires At(Replace(text, part, replacement), i, p)
    ensures Contains(text, p) && p != part
    decreases |text|
  {
    if part <= text {
      var rest := Replace(text[|part|..], part, replacement);
      if i < |replacement| {
        BeginningTouches(p, i, replacement, rest);
      } else {
        AtTail(replacement, rest, i, p);
        ReplacedAt(text[|part|..], part, replacement, p, i - |replacement|);
        assert text == text[..|part|] + text[|part|..] + [];
        ContainsWider(text[..|part|], text[|part|..], [], p);
      }
    } else if i > 0 {
      AtTail([text[0]], Replace(text[1..], part, replacement), i, p);
      ReplacedAt(text[1..], part, replacement, p, i - 1);
      ContainsTail(text, p);
    } else {
      assert p[0..] == p;
      PrefixKept(text, part, replacement, p, 0);
      assert At(text, 0, p);
    }
  }

  /** Replacing `part` brings in nothing that stays apart from the replacement, and removes `part`
      itself if it does. */
  lemma ReplaceRemoves(text: Text, part: Text, replacement: Text, p: Text)
    requires part != [] && replacement != [] && p != [] && Apart(p, replacement)
    requires !Contains(text, p) || p == part
    ensures !Contains(Replace(text, part, replacement), p)
  {
    var r := Replace(text, part, replacement);
    forall i: nat ensures !At(r, i, p) {
      if At(r, i, p) {
        ReplacedAt(text, part, replacement, p, i);
      }
    }
  }

  // ---------------------------------------------------------------- JSON strings

  function Hex(d: nat): Code
    requires d < 16
  {
    if d < 10 then 48 + d else 87 + d
  }

  function Unit(c: nat): Text
    requires c < 0x10000
  {
    [BACKSLASH, 117, Hex(c / 4096), Hex(c / 256 % 16), Hex(c / 16 % 16), Hex(c % 16)]
  }

  /** One character of an ASCII-only JSON string; beyond the basic plane, a surrogate pair. */
  function Escape(c: Code): Text {
    if c == BACKSLASH then [BACKSLASH, BACKSLASH]
    else if c == QUOTE then [BACKSLASH, QUOTE]
    else if c == 10 then [BACKSLASH, 110]
    else if c == 13 then [BACKSLASH, 114]
    else if c == 9 then [BACKSLASH, 116]
    else if c == 12 then [BACKSLASH, 102]
    else if c == 8 then [BACKSLASH, 98]
    else if 32 <= c <= 126 then [c]
    else if c < 0x10000 then Unit(c)
    else Unit(0xd800 + (c - 0x10000) / 1024) + Unit(0xdc00 + (c - 0x10000) % 1024)
  }

  function Escaped(s: Text): Text {
    if s == [] then [] else Escape(s[0]) + Escaped(s[1..])
  }

  function Encoded(s: Text): Text {
    [QUOTE] + Escaped(s) + [QUOTE]
  }

  /** Escaping is a homomorphism, so substrings survive it. */
  lemma {:induction false} EscapedAppend(a: Text, b: Text)
    ensures Escaped(a + b) == Escaped(a) + Escaped(b)
    decreases |a|
  {
    if a == [] {
      assert a + b == b;
    } else {
      assert (a + b)[1..] == a[1..] + b;
      EscapedAppend(a[1..], b);
    }
  }

  lemma EncodedContains(text: Text, part: Text)
    requires Contains(text, part)
    ensures Contains(Encoded(text), Escaped(part))
  {
    var i: nat :| i <= |text| && At(text, i, part);
    var a, b := text[..i], text[i + |part|..];
    assert text == a + part + b;
    EscapedAppend(a + part, b);
    EscapedAppend(a, part);
    ContainsMiddle(Escaped(a), Escaped(part), Escaped(b));
    ContainsWider([QUOTE], Escaped(text), [QUOTE], Escaped(part));
  }

  // ---------------------------------------------------------------- callback parameters

  /** The four texts the callback pattern matches. */
  const CALLBACKS: set<Text> := {Codes("?code="), Codes("?state="), Codes("&code="), Codes("&state=")}

  predicate Callback(text: Text) {
    exists p | p in CALLBACKS :: Contains(text, p)
  }

  /** Characters that are encoded as themselves. */
  predicate Plain(c: Code) {
    32 <= c <= 126 && c != QUOTE && c != BACKSLASH
  }

  predicate Opens(c: Code) { c == 63 || c == 38 }

  lemma CallbacksArePlain(p: Text)
    requires p in CALLBACKS
    ensures p != [] && Opens(p[0]) && forall i | 0 <= i < |p| :: Plain(p[i])
  {
  }

  lemma {:induction false} PlainEscapes(p: Text)
    requires forall i | 0 <= i < |p| :: Plain(p[i])
    ensures Escaped(p) == p
    decreases |p|
  {
    if p != [] {
      PlainEscapes(p[1..]);
    }
  }

  /** An escape is the character itself or starts with a backslash and opens no parameter. */
  lemma EscapeShape(c: Code)
    ensures Escape(c) != []
    ensures Plain(c) ==> Escape(c) == [c]
    ensures !Plain(c) ==> Escape(c)[0] == BACKSLASH && forall i | 0 <= i < |Escape(c)| :: !Opens(Escape(c)[i])
  {
  }

  /** A plain prefix of the encoding is a prefix of the text. */
  lemma {:induction false} PlainPrefix(p: Text, s: Text, tail: Text)
    requires (forall i | 0 <= i < |p| :: Plain(p[i])) && p <= Escaped(s) + tail && tail == [QUOTE]
    ensures p <= s
    decreases |p|
  {
    if p != [] {
      assert Plain(p[0]) && p[0] == (Escaped(s) + tail)[0];
      if s != [] {
        EscapeShape(s[0]);
        assert (Escaped(s) + tail)[0] == Escape(s[0])[0];
        assert Escape(s[0]) == [s[0]];
        assert Escaped(s) + tail == [s[0]] + (Escaped(s[1..]) + tail);
        PlainPrefix(p[1..], s[1..], tail);
      }
    }
  }

  /** Where a parameter opens in the encoding, it opens in the text. */
  lemma {:induction false} OpeningIsOwn(p: Text, s: Text, i: nat)
    requires p != [] && Opens(p[0]) && (forall k | 0 <= k < |p| :: Plain(p[k]))
    requires At(Escaped(s) + [QUOTE], i, p)
    ensures Contains(s, p)
    decreases |s|
  {
    assert s == [] ==> Escaped(s) + [QUOTE] == [QUOTE];
    AtFirst(Escaped(s) + [QUOTE], i, p);
    if s != [] {
      var first, rest := Escape(s[0]), Escaped(s[1..]) + [QUOTE];
      assert Escaped(s) + [QUOTE] == first + rest;
      EscapeShape(s[0]);
      if i >= |first| {
        AtTail(first, rest, i, p);
        OpeningIsOwn(p, s[1..], i - |first|);
        ContainsTail(s, p);
      } else {
        assert first[i] == p[0];
        assert i == 0 && p <= Escaped(s) + [QUOTE];
        PlainPrefix(p, s, [QUOTE]);
        assert At(s, 0, p);
      }
    }
  }

  lemma ParameterIsEncoded(text: Text, p: Text)
    requires p != [] && Opens(p[0]) && forall k | 0 <= k < |p| :: Plain(p[k])
    ensures Contains(Encoded(text), p) <==> Contains(text, p)
  {
    if Contains(text, p) {
      PlainEscapes(p);
      EncodedContains(text, p);
    }
    if Contains(Encoded(text), p) {
      var whole := Escaped(text) + [QUOTE];
      assert Encoded(text) == [QUOTE] + whole;
      var i: nat :| i <= |Encoded(text)| && At(Encoded(text), i, p);
      AtFirst(Encoded(text), i, p);
      assert i >= 1;
      AtTail([QUOTE], whole, i, p);
      OpeningIsOwn(p, text, i - 1);
    }
  }

  /** Searching the encoding for a callback parameter is searching the text. */
  lemma CallbackIsEncoded(text: Text)
    ensures Callback(Encoded(text)) <==> Callback(text)
  {
    forall p | p in CALLBACKS ensures Contains(Encoded(text), p) <==> Contains(text, p) {
      CallbacksArePlain(p);
      ParameterIsEncoded(text, p);
    }
  }

  // ---------------------------------------------------------------- the evidence check

  predicate Sensitive(encoded: Text, secret: Text) {
    secret != [] && (Contains(encoded, secret) || Contains(encoded, Escaped(secret)))
  }

  /** What the evidence check accepts. */
  predicate Safe(text: Text, secrets: set<Text>) {
    !Callback(Encoded(text)) && forall s | s in secrets :: !Sensitive(Encoded(text), s)
  }

  /** Accepted evidence contains no secret and no callback parameter, and neither does its encoding. */
  lemma SafeHasNoSecret(text: Text, secrets: set<Text>)
    requires Safe(text, secrets)
    ensures !Callback(text)
    ensures forall s | s in secrets && s != [] :: !Contains(text, s) && !Contains(Encoded(text), s)
  {
    CallbackIsEncoded(text);
    forall s | s in secrets && s != [] ensures !Contains(text, s) && !Contains(Encoded(text), s) {
      assert !Sensitive(Encoded(text), s);
      if Contains(text, s) {
        EncodedContains(text, s);
      }
    }
  }

  /** No secret occurs, as it is or escaped. */
  ghost predicate Untouched(text: Text, secrets: set<Text>) {
    forall s | s in secrets && s != [] :: !Contains(text, s) && !Contains(text, Escaped(s))
  }

  /** The secret and its escaped form stay apart from the replacement. */
  ghost predicate Distinctive(s: Text) {
    s != [] && Apart(s, REDACTED) && Apart(Escaped(s), REDACTED)
  }

  ghost predicate Gone(text: Text, s: Text) {
    !Contains(text, s) && !Contains(text, Escaped(s))
  }

  /** One iteration: the secret as it is, then escaped; an empty secret is skipped. */
  function Pass(text: Text, s: Text): Text {
    if s == [] then text
    else
      EscapedNotEmpty(s);
      Replace(Replace(text, s, REDACTED), Escaped(s), REDACTED)
  }

  ghost predicate IsLongest(s: Text, secrets: set<Text>) {
    s in secrets && forall t | t in secrets :: |t| <= |s|
  }

  /** `r` is `text` after one pass for each secret, longest first, ties in any order. */
  ghost predicate Redacts(text: Text, secrets: set<Text>, r: Text)
    decreases |secrets|
  {
    if secrets == {} then r == text
    else exists s :: IsLongest(s, secrets) && Redacts(Pass(text, s), secrets - {s}, r)
  }

  /** A secret longer than all others is replaced before any of them can break it up. */
  lemma LongestGoesFirst(text: Text, secrets: set<Text>, r: Text, longest: Text)
    requires longest in secrets && (forall t | t in secrets && t != longest :: |t| < |longest|)
    ensures Redacts(text, secrets, r) <==> Redacts(Pass(text, longest), secrets - {longest}, r)
  {
    assert IsLongest(longest, secrets);
    forall s | IsLongest(s, secrets) ensures s == longest {
    }
  }

  /** A pass replaces the secret as it is, and then as JSON escapes it. */
  lemma PassReplacesBoth(text: Text, s: Text)
    requires s != []
    ensures Escaped(s) != [] && Pass(text, s) == Replace(Replace(text, s, REDACTED), Escaped(s), REDACTED)
    ensures Pass(text, []) == text
  {
    EscapedNotEmpty(s);
  }

  /** One pass removes its own secret and brings back no other. */
  lemma PassRemoves(text: Text, s: Text, other: Text)
    requires Distinctive(other) && (s == other || Gone(text, other))
    ensures Gone(Pass(text, s), other)
  {
    if s != [] {
      EscapedNotEmpty(s);
      EscapedNotEmpty(other);
      var first := Replace(text, s, REDACTED);
      ReplaceRemoves(text, s, REDACTED, other);
      ReplaceRemoves(first, Escaped(s), REDACTED, other);
      if s != other {
        ReplaceRemoves(text, s, REDACTED, Escaped(other));
      }
      ReplaceRemoves(first, Escaped(s), REDACTED, Escaped(other));
    }
  }

  /** Whatever the order among equally long secrets, every secret that stays apart from the
      replacement is gone afterwards. */
  lemma {:induction false} DistinctiveSecretsAreGone(text: Text, secrets: set<Text>, r: Text, other: Text)
    requires Redacts(text, secrets, r) && Distinctive(other) && (other in secrets || Gone(text, other))
    ensures Gone(r, other)
    decreases |secrets|
  {
    if secrets != {} {
      var s :| IsLongest(s, secrets) && Redacts(Pass(text, s), secrets - {s}, r);
      if s == other || Gone(text, other) {
        PassRemoves(text, s, other);
      }
      DistinctiveSecretsAreGone(Pass(text, s), secrets - {s}, r, other);
    }
  }

  /** Text in which no secret occurs is kept as it is. */
  lemma {:induction false} UntouchedIsKept(text: Text, secrets: set<Text>, r: Text)
    requires Redacts(text, secrets, r) && Untouched(text, secrets)
    ensures r == text
    decreases |secrets|
  {
    if secrets != {} {
      var s :| IsLongest(s, secrets) && Redacts(Pass(text, s), secrets - {s}, r);
      if s != [] {
        EscapedNotEmpty(s);
        ReplaceAbsent(text, s, REDACTED);
        ReplaceAbsent(text, Escaped(s), REDACTED);
      }
      UntouchedIsKept(text, secrets - {s}, r);
    }
  }

  method RedactSecrets(text: Text, secrets: set<Text>) returns (r: Text)
    ensures Redacts(text, secrets, r)
  {
    r := text;
    var rest := secrets;
    while rest != {}
      invariant forall end :: Redacts(r, rest, end) ==> Redacts(text, secrets, end)
      decreases |rest|
    {
      Longest(rest);
      var s :| s in rest && forall t | t in rest :: |t| <= |s|;
      assert IsLongest(s, rest);
      r := Pass(r, s);
      rest := rest - {s};
    }
  }

  lemma {:induction false} Longest(texts: set<Text>)
    requires texts != {}
    ensures exists s :: s in texts && forall t | t in texts :: |t| <= |s|
    decreases |texts|
  {
    var s :| s in texts;
    var rest := texts - {s};
    if rest == {} {
      assert texts == {s};
    } else {
      Longest(rest);
      var m :| m in rest && forall t | t in rest :: |t| <= |m|;
      var best := if |m| >= |s| then m else s;
      forall t | t in texts ensures |t| <= |best| {
        assert t == s || t in rest;
      }
      assert best in texts;
    }
  }

  lemma EscapedNotEmpty(s: Text)
    requires s != []
    ensures Escaped(s) != []
  {
    EscapeShape(s[0]);
  }

  /** Redact, let `tokens` remove generated one-time tokens, and withhold what is still unsafe:
      whatever `tokens` does, no secret gets out, and only unsafe text is withheld. */
  method Sanitized(text: Text, secrets: set<Text>, tokens: Text -> Text) returns (r: Text)
    ensures r == WITHHELD
            || (!Callback(r) && forall s | s in secrets && s != [] :: !Contains(r, s) && !Contains(Encoded(r), s))
    ensures exists redacted :: Redacts(text, secrets, redacted)
              && r == if Safe(tokens(redacted), secrets) then tokens(redacted) else WITHHELD
    ensures Untouched(text, secrets) ==>
              r == if Safe(tokens(text), secrets) then tokens(text) else WITHHELD
  {
    var value := RedactSecrets(text, secrets);
    if Untouched(text, secrets) {
      UntouchedIsKept(text, secrets, value);
    }
    value := tokens(value);
    if Safe(value, secrets) {
      SafeHasNoSecret(value, secrets);
      return value;
    }
    return WITHHELD;
  }
}
