/** Text as the library measures it: length in UTF-8 bytes, and white space stripped from both ends. */
module Texts {

  predicate WhiteSpace(c: char) {
    || '\U{9}' <= c <= '\U{d}' || c == ' ' || c == '\U{85}' || c == '\U{a0}' || c == '\U{1680}'
    || '\U{2000}' <= c <= '\U{200a}' || c == '\U{2028}' || c == '\U{2029}' || c == '\U{202f}' || c == '\U{205f}'
    || c == '\U{3000}'
  }

  function Utf8Length(text: string): nat {
    if text == [] then 0
    else
      var c := text[0];
      (if c < '\U{80}' then 1 else if c < '\U{800}' then 2 else if c < '\U{10000}' then 3 else 4) + Utf8Length(text[1..])
  }

  predicate Blank(text: string) {
    forall i :: 0 <= i < |text| ==> WhiteSpace(text[i])
  }

  function LeadingBlanks(text: string): (n: nat)
    ensures n <= |text| && Blank(text[..n]) && (n < |text| ==> !WhiteSpace(text[n]))
  {
    if text == [] || !WhiteSpace(text[0]) then 0
    else
      var n := LeadingBlanks(text[1..]);
      assert text[..n + 1] == [text[0]] + text[1..][..n];
      n + 1
  }

  function TrailingBlanks(text: string): (n: nat)
    ensures n <= |text| && Blank(text[|text| - n..]) && (n < |text| ==> !WhiteSpace(text[|text| - n - 1]))
  {
    if text == [] || !WhiteSpace(text[|text| - 1]) then 0
    else
      var init := text[..|text| - 1];
      var n := TrailingBlanks(init);
      assert text[|text| - n - 1..] == init[|init| - n..] + [text[|text| - 1]];
      n + 1
  }

  /** The text without its leading and trailing white space; empty exactly for a blank text. */
  function Trimmed(text: string): (trimmed: string)
    ensures trimmed == [] <==> Blank(text)
    ensures trimmed != [] ==> !WhiteSpace(trimmed[0]) && !WhiteSpace(trimmed[|trimmed| - 1])
  {
    var rest := text[LeadingBlanks(text)..];
    rest[..|rest| - TrailingBlanks(rest)]
  }

  lemma Middle(text: string, n: nat, rest: string, k: nat)
    requires n <= |text| && rest == text[n..] && k <= |rest|
    ensures text == text[..n] + rest[..k] + rest[k..]
  {
    assert rest == rest[..k] + rest[k..];
    assert text[..n] + rest[..k] + rest[k..] == text[..n] + (rest[..k] + rest[k..]);
  }

  /** What is stripped is white space, and what is left is the middle of the text. */
  lemma TrimmedIsTheMiddle(text: string) returns (lead: string, tail: string)
    ensures text == lead + Trimmed(text) + tail && Blank(lead) && Blank(tail)
  {
    var n := LeadingBlanks(text);
    var rest := text[n..];
    var k := |rest| - TrailingBlanks(rest);
    lead, tail := text[..n], rest[k..];
    Middle(text, n, rest, k);
  }

  /** The length adds up over the characters, and a character takes one to four bytes by its code point. */
  lemma {:induction false} Utf8LengthAdds(a: string, b: string)
    ensures Utf8Length(a + b) == Utf8Length(a) + Utf8Length(b)
    ensures |a| == 1 ==> Utf8Length(a) == if a[0] as int < 0x80 then 1 else if a[0] as int < 0x800 then 2
                                          else if a[0] as int < 0x1_0000 then 3 else 4
  {
    if a == [] {
      assert a + b == b;
    } else {
      assert (a + b)[1..] == a[1..] + b;
      Utf8LengthAdds(a[1..], b);
    }
  }
}
