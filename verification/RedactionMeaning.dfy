/**
 What replacing, escaping and the evidence check mean, each against a definition
 of its own.
 */
module RedactionMeaning {
  import opened Redaction

  // ---------------------------------------------------------------- replacing

  function Joined(pieces: seq<Text>, separator: Text): Text
    requires pieces != []
  {
    if |pieces| == 1 then pieces[0] else pieces[0] + separator + Joined(pieces[1..], separator)
  }

  /** `part` first occurs right behind `piece`. */
  ghost predicate FirstBehind(piece: Text, part: Text) {
    forall k: nat | k < |piece| :: !At(piece + part, k, part)
  }

  /** The text cut at the leftmost occurrences of `part` that do not overlap. */
  ghost predicate Cuts(text: Text, part: Text, pieces: seq<Text>) {
    && pieces != [] && text == Joined(pieces, part)
    && (forall i | 0 <= i < |pieces| - 1 :: FirstBehind(pieces[i], part))
    && !Contains(pieces[|pieces| - 1], part)
  }

  lemma ExtendLast(text: Text, part: Text, piece: Text)
    requires text != [] && part != [] && !(part <= text) && piece == text[1..] && !Contains(piece, part)
    ensures !Contains([text[0]] + piece, part)
  {
    assert [text[0]] + piece == text;
    forall k: nat ensures !At(text, k, part) {
      if k > 0 && At(text, k, part) {
        AtTail([text[0]], piece, k, part);
      }
    }
  }

  lemma ExtendFirst(c: Code, part: Text, piece: Text)
    requires part != [] && FirstBehind(piece, part) && !(part <= [c] + piece + part)
    ensures FirstBehind([c] + piece, part)
  {
    var whole := [c] + piece + part;
    assert whole == [c] + (piece + part);
    forall k: nat | k < |[c] + piece| ensures !At(whole, k, part) {
      if k > 0 && At(whole, k, part) {
        AtTail([c], piece + part, k, part);
      }
    }
  }

  lemma PrefixOfText(c: Code, piece: Text, part: Text, more: Text, text: Text)
    requires text == [c] + piece + part + more && part <= [c] + piece + part
    ensures part <= text
  {
    assert text[..|[c] + piece + part|] == [c] + piece + part;
  }

  lemma JoinedLonger(c: Code, pieces: seq<Text>, separator: Text)
    requires pieces != []
    ensures Joined([[c] + pieces[0]] + pieces[1..], separator) == [c] + Joined(pieces, separator)
  {
    var longer := [[c] + pieces[0]] + pieces[1..];
    assert longer[1..] == pieces[1..];
    assert |pieces| > 1 ==> ([c] + pieces[0]) + separator == [c] + (pieces[0] + separator);
  }

  lemma JoinedMore(pieces: seq<Text>, separator: Text)
    requires pieces != []
    ensures Joined([[]] + pieces, separator) == separator + Joined(pieces, separator)
  {
    assert ([[]] + pieces)[1..] == pieces;
  }

  lemma CutMore(text: Text, part: Text, pieces: seq<Text>)
    requires part != [] && part <= text && Cuts(text[|part|..], part, pieces)
    ensures Cuts(text, part, [[]] + pieces)
  {
    JoinedMore(pieces, part);
    assert text == part + text[|part|..];
    var more := [[]] + pieces;
    forall i | 0 <= i < |more| - 1 ensures FirstBehind(more[i], part) {
      assert i > 0 ==> more[i] == pieces[i - 1];
    }
  }

  lemma CutLonger(text: Text, part: Text, pieces: seq<Text>)
    requires part != [] && text != [] && !(part <= text) && Cuts(text[1..], part, pieces)
    ensures Cuts(text, part, [[text[0]] + pieces[0]] + pieces[1..])
  {
    var c := text[0];
    var longer := [[c] + pieces[0]] + pieces[1..];
    JoinedLonger(c, pieces, part);
    assert text == [c] + text[1..];
    if |pieces| == 1 {
      ExtendLast(text, part, pieces[0]);
    } else {
      var more := Joined(pieces[1..], part);
      assert text == [c] + pieces[0] + part + more;
      assert FirstBehind(pieces[0], part);
      if part <= [c] + pieces[0] + part {
        PrefixOfText(c, pieces[0], part, more, text);
      }
      ExtendFirst(c, part, pieces[0]);
      forall i | 0 <= i < |longer| - 1 ensures FirstBehind(longer[i], part) {
        assert i > 0 ==> longer[i] == pieces[i];
      }
    }
  }

  /** Replacing is cutting at the leftmost occurrences and joining with the replacement; nothing else
      of the text is lost or moved. */
  lemma {:induction false} ReplaceIsRejoin(text: Text, part: Text, replacement: Text) returns (pieces: seq<Text>)
    requires part != []
    ensures Cuts(text, part, pieces) && Replace(text, part, replacement) == Joined(pieces, replacement)
    decreases |text|
  {
    if text == [] {
      pieces := [[]];
      assert forall k: nat :: !At([], k, part);
    } else if part <= text {
      var rest := ReplaceIsRejoin(text[|part|..], part, replacement);
      pieces := [[]] + rest;
      CutMore(text, part, rest);
      JoinedMore(rest, replacement);
    } else {
      var rest := ReplaceIsRejoin(text[1..], part, replacement);
      pieces := [[text[0]] + rest[0]] + rest[1..];
      CutLonger(text, part, rest);
      JoinedLonger(text[0], rest, replacement);
    }
  }

  // ---------------------------------------------------------------- escaping

  function HexValue(c: Code): int {
    if 48 <= c <= 57 then c - 48 else if 97 <= c <= 102 then c - 87 else -1
  }

  function UnitValue(e: Text): int
    requires |e| == 6
  {
    4096 * HexValue(e[2]) + 256 * HexValue(e[3]) + 16 * HexValue(e[4]) + HexValue(e[5])
  }

  /** The character that a JSON reader takes one escape for. */
  function ReadBack(e: Text): int {
    if |e| == 1 then e[0]
    else if |e| == 2 then
      if e[1] == 110 then 10 else if e[1] == 114 then 13 else if e[1] == 116 then 9
      else if e[1] == 102 then 12 else if e[1] == 98 then 8 else e[1]
    else if |e| == 6 then UnitValue(e)
    else if |e| == 12 then 0x10000 + (UnitValue(e[..6]) - 0xd800) * 1024 + (UnitValue(e[6..]) - 0xdc00)
    else -1
  }

  lemma HexReadsBack(d: nat)
    requires d < 16
    ensures HexValue(Hex(d)) == d && 32 <= Hex(d) <= 126
  {
  }

  lemma HexDigits(c: nat)
    requires c < 0x10000
    ensures c / 4096 < 16 && c == 4096 * (c / 4096) + 256 * (c / 256 % 16) + 16 * (c / 16 % 16) + c % 16
  {
    var a := c / 16;
    var b := a / 16;
    assert c == 16 * a + c % 16 && a == 16 * b + a % 16;
    assert c / 256 == b && c / 4096 == b / 16;
  }

  lemma UnitReadsBack(c: nat)
    requires c < 0x10000
    ensures |Unit(c)| == 6 && Unit(c)[0] == BACKSLASH && Unit(c)[1] == 117 && UnitValue(Unit(c)) == c
    ensures forall i | 0 <= i < 6 :: 32 <= Unit(c)[i] <= 126
  {
    HexDigits(c);
    HexReadsBack(c / 4096);
    HexReadsBack(c / 256 % 16);
    HexReadsBack(c / 16 % 16);
    HexReadsBack(c % 16);
    var u := Unit(c);
    assert HexValue(u[2]) == c / 4096 && HexValue(u[3]) == c / 256 % 16;
    assert HexValue(u[4]) == c / 16 % 16 && HexValue(u[5]) == c % 16;
  }

  /** Every character is escaped as something that reads back as it, in printable ASCII. */
  lemma EscapeReadsBack(c: Code)
    ensures ReadBack(Escape(c)) == c
    ensures forall i | 0 <= i < |Escape(c)| :: 32 <= Escape(c)[i] <= 126
  {
    if c >= 0x10000 {
      var high, low := 0xd800 + (c - 0x10000) / 1024, 0xdc00 + (c - 0x10000) % 1024;
      UnitReadsBack(high);
      UnitReadsBack(low);
      assert Escape(c)[..6] == Unit(high) && Escape(c)[6..] == Unit(low);
    } else if Escape(c) == Unit(c) {
      UnitReadsBack(c);
    }
  }

  /** The form of each escape: two characters for the seven that JSON names, the character itself if it
      is printable ASCII, and else one or two groups of four hexadecimal digits. */
  lemma EscapeForms(c: Code)
    ensures Escape(92) == Codes("\\\\") && Escape(34) == Codes("\\\"") && Escape(10) == Codes("\\n")
    ensures Escape(13) == Codes("\\r") && Escape(9) == Codes("\\t")
    ensures Escape(12) == Codes("\\f") && Escape(8) == Codes("\\b")
    ensures 32 <= c <= 126 && c != 34 && c != 92 ==> Escape(c) == [c]
    ensures c > 126 || (c < 32 && c !in {8, 9, 10, 12, 13}) ==> |Escape(c)| == if c < 0x10000 then 6 else 12
  {
  }

  // ---------------------------------------------------------------- the evidence check

  ghost predicate AllPlain(s: Text) {
    forall i | 0 <= i < |s| :: Plain(s[i])
  }

  lemma PlainInQuotes(text: Text, part: Text)
    requires AllPlain(text) && AllPlain(part) && part != []
    ensures Contains(Encoded(text), part) <==> Contains(text, part)
  {
    PlainEscapes(text);
    if Contains(text, part) {
      ContainsWider([QUOTE], text, [QUOTE], part);
    }
    if i: nat :| i <= |Encoded(text)| && At(Encoded(text), i, part) {
      AtFirst(Encoded(text), i, part);
      assert i > 0;
      AtTail([QUOTE], text + [QUOTE], i, part);
      AtInside(text, part, i - 1);
    }
  }

  lemma AtInside(text: Text, part: Text, i: nat)
    requires AllPlain(part) && part != [] && At(text + [QUOTE], i, part)
    ensures Contains(text, part)
  {
    var whole := text + [QUOTE];
    assert whole[i..i + |part|][|part| - 1] == part[|part| - 1];
    assert i + |part| <= |text|;
    assert text[i..i + |part|] == whole[i..i + |part|];
    assert At(text, i, part);
  }

  /** On plain text with plain secrets, evidence passes exactly if it contains no callback parameter
      and no secret: nothing harmless is withheld. */
  lemma PlainEvidenceIff(text: Text, secrets: set<Text>)
    requires AllPlain(text) && forall s | s in secrets :: AllPlain(s)
    ensures Safe(text, secrets) <==> !Callback(text) && forall s | s in secrets && s != [] :: !Contains(text, s)
  {
    CallbackIsEncoded(text);
    forall s | s in secrets && s != [] ensures Sensitive(Encoded(text), s) <==> Contains(text, s) {
      PlainEscapes(s);
      PlainInQuotes(text, s);
    }
  }
}
