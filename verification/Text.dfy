/** Python's str.strip family. */
module Text {

  /** The characters Python's str.strip() removes. */
  predicate IsSpace(c: char) {
    || '\U{9}' <= c <= '\U{D}' || '\U{1C}' <= c <= ' ' || c == '\U{85}' || c == '\U{A0}' || c == '\U{1680}'
    || '\U{2000}' <= c <= '\U{200A}' || c == '\U{2028}' || c == '\U{2029}' || c == '\U{202F}'
    || c == '\U{205F}' || c == '\U{3000}'
  }

  function StripLeft(s: string, strip: char -> bool): string {
    if s != "" && strip(s[0]) then StripLeft(s[1..], strip) else s
  }

  function StripRight(s: string, strip: char -> bool): string {
    if s != "" && strip(s[|s| - 1]) then StripRight(s[..|s| - 1], strip) else s
  }

  function Strip(s: string, strip: char -> bool): string {
    StripRight(StripLeft(s, strip), strip)
  }

  predicate AllOf(s: string, which: char -> bool) {
    forall i | 0 <= i < |s| :: which(s[i])
  }

  lemma Longer(first: char, cut: string, rest: string, tail: string, strip: char -> bool) returns (longer: string)
    requires tail == cut + rest && AllOf(cut, strip) && strip(first)
    ensures [first] + tail == longer + rest && AllOf(longer, strip)
  {
    longer := [first] + cut;
    assert [first] + (cut + rest) == longer + rest;
  }

  lemma {:induction false} StripLeftCuts(s: string, strip: char -> bool) returns (cut: string)
    ensures s == cut + StripLeft(s, strip) && AllOf(cut, strip)
    ensures StripLeft(s, strip) != "" ==> !strip(StripLeft(s, strip)[0])
  {
    if s != "" && strip(s[0]) {
      var rest := StripLeftCuts(s[1..], strip);
      cut := Longer(s[0], rest, StripLeft(s[1..], strip), s[1..], strip);
      assert s == [s[0]] + s[1..];
    } else {
      cut := "";
    }
  }

  lemma {:induction false} StripRightCuts(s: string, strip: char -> bool) returns (cut: string)
    ensures s == StripRight(s, strip) + cut && AllOf(cut, strip)
    ensures StripRight(s, strip) != "" ==> !strip(StripRight(s, strip)[|StripRight(s, strip)| - 1])
    ensures StripRight(s, strip) <= s
  {
    if s != "" && strip(s[|s| - 1]) {
      var rest := StripRightCuts(s[..|s| - 1], strip);
      cut := rest + [s[|s| - 1]];
      assert s == s[..|s| - 1] + [s[|s| - 1]];
    } else {
      cut := "";
    }
  }

  /** Stripping cuts off what is to be stripped at both ends, and all of it. */
  lemma StripCuts(s: string, strip: char -> bool) returns (front: string, back: string)
    ensures s == front + Strip(s, strip) + back && AllOf(front, strip) && AllOf(back, strip)
    ensures Strip(s, strip) != "" ==> !strip(Strip(s, strip)[0]) && !strip(Strip(s, strip)[|Strip(s, strip)| - 1])
  {
    front := StripLeftCuts(s, strip);
    back := StripRightCuts(StripLeft(s, strip), strip);
    assert s == front + Strip(s, strip) + back;
  }
}
