/** Text as the Go side sees it: sizes are UTF-8 byte counts, blankness is Unicode white space. */
module Text {

  datatype Option<+T> = None | Some(value: T)

  /** Number of bytes of one character in UTF-8. */
  function Width(c: char): (w: nat)
    ensures 1 <= w <= 4
  {
    if c as int < 0x80 then 1
    else if c as int < 0x800 then 2
    else if c as int < 0x10000 then 3
    else 4
  }

  /** Go's len() of a string. */
  function Size(s: string): nat {
    if s == "" then 0 else Width(s[0]) + Size(s[1..])
  }

  /** unicode.IsSpace. */
  predicate IsSpace(c: char) {
    var n := c as int;
    || 0x09 <= n <= 0x0D || n == 0x20 || n == 0x85 || n == 0xA0 || n == 0x1680
    || 0x2000 <= n <= 0x200A || n == 0x2028 || n == 0x2029 || n == 0x202F || n == 0x205F || n == 0x3000
  }

  /** strings.TrimSpace(s) == "" */
  predicate Blank(s: string) {
    forall k :: 0 <= k < |s| ==> IsSpace(s[k])
  }

  function TrimLeft(s: string): string {
    if s != "" && IsSpace(s[0]) then TrimLeft(s[1..]) else s
  }

  function TrimRight(s: string): string {
    if s != "" && IsSpace(s[|s| - 1]) then TrimRight(s[..|s| - 1]) else s
  }

  /** strings.TrimSpace */
  function Trim(s: string): string {
    TrimRight(TrimLeft(s))
  }

  lemma {:induction false} TrimLeftExactly(s: string) returns (lead: string)
    ensures s == lead + TrimLeft(s) && Blank(lead)
    ensures TrimLeft(s) != "" ==> !IsSpace(TrimLeft(s)[0])
  {
    lead := "";
    if s != "" && IsSpace(s[0]) {
      lead := TrimLeftExactly(s[1..]);
      assert s == [s[0]] + s[1..] == ([s[0]] + lead) + TrimLeft(s[1..]);
      lead := [s[0]] + lead;
    }
  }

  lemma {:induction false} TrimRightExactly(s: string) returns (tail: string)
    ensures s == TrimRight(s) + tail && Blank(tail)
    ensures TrimRight(s) != "" ==> !IsSpace(TrimRight(s)[|TrimRight(s)| - 1])
  {
    tail := "";
    var n := |s| - 1;
    if s != "" && IsSpace(s[n]) {
      tail := TrimRightExactly(s[..n]);
      assert s == s[..n] + [s[n]] == TrimRight(s[..n]) + (tail + [s[n]]);
      tail := tail + [s[n]];
    }
  }

  /** What is trimmed away is white space, and none is left at either end. */
  lemma TrimExactly(s: string) returns (lead: string, tail: string)
    ensures s == lead + (Trim(s) + tail) && Blank(lead) && Blank(tail)
    ensures Trim(s) != "" ==> !IsSpace(Trim(s)[0]) && !IsSpace(Trim(s)[|Trim(s)| - 1])
  {
    lead := TrimLeftExactly(s);
    tail := TrimRightExactly(TrimLeft(s));
  }

  lemma BlankTrims(s: string)
    ensures Blank(s) <==> Trim(s) == ""
  {
    var lead, tail := TrimExactly(s);
    if Trim(s) != "" {
      assert s[|lead|] == Trim(s)[0];
    }
  }

  lemma SizeBounds(s: string)
    ensures |s| <= Size(s) <= 4 * |s|
  {
  }
}
