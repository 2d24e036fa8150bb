/**
 * extractJSONObject (agents/runtime/loop.go) picks the first JSON object out of model output by counting braces
 * outside strings. It works on bytes; the characters it looks for are ASCII, so characters do as well.
 */
module JsonExtract {
  import opened Text

  // ---- trimming and searching --------------------------------------------------------------------

  predicate HasPrefix(s: string, p: string) {
    p <= s
  }

  function TrimPrefix(s: string, p: string): string {
    if p <= s then s[|p|..] else s
  }

  /** strings.Index of a character. */
  function IndexOf(s: string, c: char): (i: int)
    ensures -1 <= i < |s|
    ensures i >= 0 ==> s[i] == c && c !in s[..i]
    ensures i < 0 ==> c !in s
  {
    if s == "" then -1
    else if s[0] == c then 0
    else
      var i := IndexOf(s[1..], c);
      assert s == [s[0]] + s[1..];
      if i < 0 then -1 else assert s[..i + 1] == [s[0]] + s[1..][..i]; i + 1
  }

  predicate OccursAt(s: string, p: string, k: int) {
    0 <= k && k + |p| <= |s| && s[k..k + |p|] == p
  }

  /** strings.LastIndex of a text. */
  function LastIndexOf(s: string, p: string): (i: int)
    ensures -1 <= i && (i >= 0 ==> OccursAt(s, p, i))
    ensures forall k :: OccursAt(s, p, k) ==> k <= i
  {
    LastIndexUpTo(s, p, |s| - |p|)
  }

  function LastIndexUpTo(s: string, p: string, n: int): (i: int)
    requires n + |p| <= |s|
    ensures -1 <= i && (i >= 0 ==> OccursAt(s, p, i))
    ensures forall k :: OccursAt(s, p, k) && k <= n ==> k <= i
    decreases n + 1
  {
    if n < 0 then -1 else if OccursAt(s, p, n) then n else LastIndexUpTo(s, p, n - 1)
  }

  const FENCE := "```"

  /** A surrounding code fence is taken off. */
  function Unfence(raw: string): string {
    if !HasPrefix(raw, FENCE) then raw
    else
      var inner := TrimPrefix(TrimPrefix(TrimPrefix(raw, "```json"), "```JSON"), FENCE);
      var i := LastIndexOf(inner, FENCE);
      Trim(if i >= 0 then inner[..i] else inner)
  }

  // ---- the scanner -------------------------------------------------------------------------------

  datatype Scan = Scan(depth: int, inString: bool, escaped: bool)

  /** This character ends the object. */
  predicate Closes(s: Scan, c: char) {
    !s.inString && c == '}' && s.depth == 1
  }

  function Step(s: Scan, c: char): Scan {
    if s.inString then
      if s.escaped then s.(escaped := false)
      else if c == '\\' then s.(escaped := true)
      else if c == '"' then s.(inString := false)
      else s
    else if c == '"' then s.(inString := true)
    else if c == '{' then s.(depth := s.depth + 1)
    else if c == '}' then s.(depth := s.depth - 1)
    else s
  }

  /** One past the character that ends the object, scanning from i. */
  function End(raw: string, i: nat, s: Scan): (end: Option<nat>)
    requires i <= |raw|
    ensures end.Some? ==> i < end.value <= |raw|
    decreases |raw| - i
  {
    if i == |raw| then None
    else if Closes(s, raw[i]) then Some(i + 1)
    else End(raw, i + 1, Step(s, raw[i]))
  }

  /** The object in a text without a fence, or the nearest thing to one. */
  function Pick(raw: string): string {
    var start := IndexOf(raw, '{');
    if start < 0 then raw
    else
      match End(raw, start, Scan(0, false, false))
      case Some(end) => Trim(raw[start..end])
      case None =>
        var j := LastIndexOf(raw, ['}']);
        if j > start then Trim(raw[start..j + 1]) else raw
  }

  function Extract(text: string): string {
    Pick(Unfence(Trim(text)))
  }

  lemma {:induction false} NothingCloses(raw: string, i: nat, s: Scan)
    requires i <= |raw| && '}' !in raw[i..]
    ensures End(raw, i, s).None?
    decreases |raw| - i
  {
    if i < |raw| {
      assert raw[i] in raw[i..];
      assert raw[i + 1..] == raw[i..][1..];
      NothingCloses(raw, i + 1, Step(s, raw[i]));
    }
  }

  lemma LastBrace(raw: string, n: nat)
    requires n <= |raw|
    ensures '}' !in raw[n..] ==> LastIndexOf(raw, ['}']) < n
    ensures n > 0 && raw[n - 1] == '}' && '}' !in raw[n..] ==> LastIndexOf(raw, ['}']) == n - 1
  {
    var j := LastIndexOf(raw, ['}']);
    assert j >= 0 ==> raw[j..j + 1][0] == '}';
    assert j >= n ==> raw[n..][j - n] == raw[j];
    if n > 0 && raw[n - 1] == '}' {
      assert raw[n - 1..n] == ['}'];
      assert OccursAt(raw, ['}'], n - 1);
    }
  }

  /** A text without an opening brace comes back as it is. */
  lemma WithoutObject(raw: string)
    requires '{' !in raw
    ensures Pick(raw) == raw
  {
  }

  /** So does one without a closing brace after the first opening one. */
  lemma NeverClosed(prefix: string, rest: string)
    requires '{' !in prefix && rest != "" && rest[0] == '{' && '}' !in rest
    ensures Pick(prefix + rest) == prefix + rest
  {
    FirstBrace(prefix, rest);
    var raw := prefix + rest;
    assert raw[|prefix|..] == rest;
    NothingCloses(raw, |prefix|, Scan(0, false, false));
    LastBrace(raw, |prefix|);
  }

  /** Of an object that is cut short, everything up to the last closing brace comes out. */
  lemma CutShort(prefix: string, part: string, suffix: string)
    requires '{' !in prefix && |part| >= 2 && part[0] == '{' && part[|part| - 1] == '}' && '}' !in suffix
    requires End(prefix + (part + suffix), |prefix|, Scan(0, false, false)).None?
    ensures Pick(prefix + (part + suffix)) == part
  {
    var raw, n := prefix + (part + suffix), |prefix| + |part|;
    FirstBrace(prefix, part + suffix);
    assert raw[n..] == suffix && raw[n - 1] == part[|part| - 1];
    LastBrace(raw, n);
    assert raw[|prefix|..n] == part;
    BothEndsTrim(part);
  }

  lemma BothEndsTrim(s: string)
    requires s != "" && !IsSpace(s[0]) && !IsSpace(s[|s| - 1])
    ensures Trim(s) == s
  {
  }

  /** The byte loop as it is written. */
  method FindEnd(raw: string, start: nat) returns (end: Option<nat>)
    requires start <= |raw|
    ensures end == End(raw, start, Scan(0, false, false))
  {
    var depth, inString, escaped := 0, false, false;
    var i := start;
    while i < |raw|
      invariant start <= i <= |raw|
      invariant End(raw, start, Scan(0, false, false)) == End(raw, i, Scan(depth, inString, escaped))
    {
      var c := raw[i];
      i := i + 1;
      if inString {
        if escaped {
          escaped := false;
          continue;
        }
        if c == '\\' {
          escaped := true;
          continue;
        }
        if c == '"' {
          inString := false;
        }
        continue;
      }
      match c {
        case '"' => inString := true;
        case '{' => depth := depth + 1;
        case '}' =>
          depth := depth - 1;
          if depth == 0 {
            return Some(i);
          }
        case _ =>
      }
    }
    end := None;
  }

  method PickObjectIn(raw: string) returns (r: string)
    ensures r == Pick(raw)
  {
    var start := IndexOf(raw, '{');
    if start < 0 {
      return raw;
    }
    var end := FindEnd(raw, start);
    if end.Some? {
      return Trim(raw[start..end.value]);
    }
    var j := LastIndexOf(raw, ['}']);
    r := if j > start then Trim(raw[start..j + 1]) else raw;
  }

  method ExtractJSONObject(text: string) returns (r: string)
    ensures r == Extract(text)
  {
    r := PickObjectIn(Unfence(Trim(text)));
  }

  // ---- JSON texts --------------------------------------------------------------------------------

  /** A character of a string: unescaped, or a backslash and what it escapes (the digits of \u follow as characters). */
  datatype Piece = Plain(c: char) | Escape(c: char)

  /** JSON values with their exact spelling, white space included (RFC 8259, sections 2 to 7). */
  datatype Value = Literal(text: string) | Str(pieces: seq<Piece>) | Array(elements: Elements) | Object(members: Members)

  datatype Elements =
    | NoElements(ws: string)
    | Element(before: string, v: Value, after: string)
    | MoreElements(before: string, v: Value, after: string, rest: Elements)

  datatype Members =
    | NoMembers(ws: string)
    | Member(before: string, key: seq<Piece>, mid: string, before2: string, v: Value, after: string)
    | MoreMembers(before: string, key: seq<Piece>, mid: string, before2: string, v: Value, after: string, rest: Members)

  predicate IsWs(s: string) {
    forall k :: 0 <= k < |s| ==> s[k] in {' ', '\t', '\n', '\r'}
  }

  /** true, false, null and everything made of number characters. */
  predicate IsLiteral(s: string) {
    || s in {"true", "false", "null"}
    || (s != "" && forall k :: 0 <= k < |s| ==> '0' <= s[k] <= '9' || s[k] in {'-', '+', '.', 'e', 'E'})
  }

  predicate PiecesOk(ps: seq<Piece>) {
    forall k :: 0 <= k < |ps| && ps[k].Plain? ==> ps[k].c != '"' && ps[k].c != '\\' && ps[k].c >= ' '
  }

  predicate ValueOk(v: Value) {
    match v
    case Literal(text) => IsLiteral(text)
    case Str(ps) => PiecesOk(ps)
    case Array(es) => ElementsOk(es)
    case Object(ms) => MembersOk(ms)
  }

  predicate ElementsOk(es: Elements) {
    match es
    case NoElements(ws) => IsWs(ws)
    case Element(before, v, after) => IsWs(before) && ValueOk(v) && IsWs(after)
    case MoreElements(before, v, after, rest) =>
      IsWs(before) && ValueOk(v) && IsWs(after) && !rest.NoElements? && ElementsOk(rest)
  }

  predicate MembersOk(ms: Members) {
    match ms
    case NoMembers(ws) => IsWs(ws)
    case Member(before, key, mid, before2, v, after) =>
      IsWs(before) && PiecesOk(key) && IsWs(mid) && IsWs(before2) && ValueOk(v) && IsWs(after)
    case MoreMembers(before, key, mid, before2, v, after, rest) =>
      && IsWs(before) && PiecesOk(key) && IsWs(mid) && IsWs(before2) && ValueOk(v) && IsWs(after)
      && !rest.NoMembers? && MembersOk(rest)
  }

  function PiecesText(ps: seq<Piece>): string {
    if ps == [] then ""
    else (match ps[0] case Plain(c) => [c] case Escape(c) => ['\\', c]) + PiecesText(ps[1..])
  }

  function StrText(ps: seq<Piece>): string {
    "\"" + PiecesText(ps) + "\""
  }

  function ValueText(v: Value): string {
    match v
    case Literal(text) => text
    case Str(ps) => StrText(ps)
    case Array(es) => "[" + ElementsText(es) + "]"
    case Object(ms) => "{" + MembersText(ms) + "}"
  }

  function ElementsText(es: Elements): string {
    match es
    case NoElements(ws) => ws
    case Element(before, v, after) => before + ValueText(v) + after
    case MoreElements(before, v, after, rest) => before + ValueText(v) + after + "," + ElementsText(rest)
  }

  function MembersText(ms: Members): string {
    match ms
    case NoMembers(ws) => ws
    case Member(before, key, mid, before2, v, after) =>
      before + StrText(key) + mid + ":" + before2 + ValueText(v) + after
    case MoreMembers(before, key, mid, before2, v, after, rest) =>
      before + StrText(key) + mid + ":" + before2 + ValueText(v) + after + "," + MembersText(rest)
  }

  // ---- scanning JSON -----------------------------------------------------------------------------

  function Walk(s: Scan, t: string): Scan
    decreases |t|
  {
    if t == "" then s else Walk(Step(s, t[0]), t[1..])
  }

  /** Scanning t from s does not end the object. */
  predicate Quiet(s: Scan, t: string)
    decreases |t|
  {
    t == "" || (!Closes(s, t[0]) && Quiet(Step(s, t[0]), t[1..]))
  }

  /** Scanning t inside an object leaves the scanner as it was. */
  ghost predicate Neutral(t: string) {
    forall d :: d >= 1 ==> Quiet(Scan(d, false, false), t) && Walk(Scan(d, false, false), t) == Scan(d, false, false)
  }

  lemma {:induction false} WalkConcat(s: Scan, a: string, b: string)
    ensures Walk(s, a + b) == Walk(Walk(s, a), b)
    ensures Quiet(s, a) && Quiet(Walk(s, a), b) ==> Quiet(s, a + b)
    decreases |a|
  {
    if a == "" {
      assert a + b == b;
    } else {
      assert (a + b)[1..] == a[1..] + b;
      WalkConcat(Step(s, a[0]), a[1..], b);
    }
  }

  lemma NeutralConcat(a: string, b: string)
    requires Neutral(a) && Neutral(b)
    ensures Neutral(a + b)
  {
    forall d | d >= 1
      ensures Quiet(Scan(d, false, false), a + b) && Walk(Scan(d, false, false), a + b) == Scan(d, false, false)
    {
      WalkConcat(Scan(d, false, false), a, b);
    }
  }

  /** Text without quotes and braces. */
  lemma {:induction false} PlainIsNeutral(t: string)
    requires '"' !in t && '{' !in t && '}' !in t
    ensures Neutral(t)
    decreases |t|
  {
    if t != "" {
      assert t == [t[0]] + t[1..];
      PlainIsNeutral(t[1..]);
      assert forall d :: d >= 1 ==> Step(Scan(d, false, false), t[0]) == Scan(d, false, false);
    }
  }

  lemma {:induction false} PiecesStayInside(d: int, ps: seq<Piece>)
    requires PiecesOk(ps)
    ensures Quiet(Scan(d, true, false), PiecesText(ps)) && Walk(Scan(d, true, false), PiecesText(ps)) == Scan(d, true, false)
    decreases |ps|
  {
    var s := Scan(d, true, false);
    if ps != [] {
      PiecesStayInside(d, ps[1..]);
      var t, rest := PiecesText(ps), PiecesText(ps[1..]);
      match ps[0]
      case Plain(c) =>
        assert t == [c] + rest;
        assert t[0] == c && t[1..] == rest;
      case Escape(c) =>
        assert t == ['\\', c] + rest;
        assert t[0] == '\\' && t[1..] == [c] + rest && t[1..][1..] == rest;
        assert Step(Step(s, t[0]), t[1..][0]) == s;
    }
  }

  lemma StrIsNeutral(ps: seq<Piece>)
    requires PiecesOk(ps)
    ensures Neutral(StrText(ps))
  {
    forall d | d >= 1
      ensures Quiet(Scan(d, false, false), StrText(ps)) && Walk(Scan(d, false, false), StrText(ps)) == Scan(d, false, false)
    {
      PiecesStayInside(d, ps);
      OneChar(Scan(d, false, false), '"');
      OneChar(Scan(d, true, false), '"');
      WalkConcat(Scan(d, false, false), ['"'], PiecesText(ps));
      WalkConcat(Scan(d, false, false), ['"'] + PiecesText(ps), ['"']);
    }
  }

  lemma OneChar(s: Scan, c: char)
    ensures Walk(s, [c]) == Step(s, c) && (Quiet(s, [c]) <==> !Closes(s, c))
  {
    assert [c][1..] == [];
  }

  /** A braced neutral text is neutral. */
  lemma BracedIsNeutral(t: string)
    requires Neutral(t)
    ensures Neutral("{" + t + "}")
  {
    forall d | d >= 1
      ensures Quiet(Scan(d, false, false), ['{'] + t + ['}'])
      ensures Walk(Scan(d, false, false), ['{'] + t + ['}']) == Scan(d, false, false)
    {
      OneChar(Scan(d, false, false), '{');
      OneChar(Scan(d + 1, false, false), '}');
      WalkConcat(Scan(d, false, false), ['{'], t);
      WalkConcat(Scan(d, false, false), ['{'] + t, ['}']);
    }
    assert ['{'] + t + ['}'] == "{" + t + "}";
  }

  lemma WsIsNeutral(ws: string)
    requires IsWs(ws)
    ensures Neutral(ws)
  {
    PlainIsNeutral(ws);
  }

  lemma {:induction false} ValueIsNeutral(v: Value)
    requires ValueOk(v)
    ensures Neutral(ValueText(v))
  {
    match v
    case Literal(text) => PlainIsNeutral(text);
    case Str(ps) => StrIsNeutral(ps);
    case Array(es) =>
      ElementsAreNeutral(es);
      PlainIsNeutral("[");
      PlainIsNeutral("]");
      NeutralConcat("[", ElementsText(es));
      NeutralConcat("[" + ElementsText(es), "]");
    case Object(ms) =>
      MembersAreNeutral(ms);
      BracedIsNeutral(MembersText(ms));
  }

  /** white space, value, white space */
  lemma Padded(before: string, v: Value, after: string)
    requires IsWs(before) && IsWs(after) && Neutral(ValueText(v))
    ensures Neutral(before + ValueText(v) + after)
  {
    WsIsNeutral(before);
    WsIsNeutral(after);
    NeutralConcat(before, ValueText(v));
    NeutralConcat(before + ValueText(v), after);
  }

  lemma {:induction false} ElementsAreNeutral(es: Elements)
    requires ElementsOk(es)
    ensures Neutral(ElementsText(es))
  {
    match es
    case NoElements(ws) => WsIsNeutral(ws);
    case Element(before, v, after) =>
      ValueIsNeutral(v);
      Padded(before, v, after);
    case MoreElements(before, v, after, rest) =>
      ValueIsNeutral(v);
      Padded(before, v, after);
      ElementsAreNeutral(rest);
      Joined(before + ValueText(v) + after, ",", ElementsText(rest));
  }

  lemma Joined(a: string, sep: string, b: string)
    requires Neutral(a) && Neutral(b) && (sep == "," || sep == ":")
    ensures Neutral(a + sep + b)
  {
    PlainIsNeutral(sep);
    NeutralConcat(a, sep);
    NeutralConcat(a + sep, b);
  }

  lemma {:induction false} MembersAreNeutral(ms: Members)
    requires MembersOk(ms)
    ensures Neutral(MembersText(ms))
  {
    match ms
    case NoMembers(ws) => WsIsNeutral(ws);
    case Member(before, key, mid, before2, v, after) =>
      ValueIsNeutral(v);
      MemberIsNeutral(before, key, mid, before2, v, after);
    case MoreMembers(before, key, mid, before2, v, after, rest) =>
      ValueIsNeutral(v);
      MemberIsNeutral(before, key, mid, before2, v, after);
      MembersAreNeutral(rest);
      Joined(before + StrText(key) + mid + ":" + before2 + ValueText(v) + after, ",", MembersText(rest));
  }

  lemma MemberIsNeutral(before: string, key: seq<Piece>, mid: string, before2: string, v: Value, after: string)
    requires IsWs(before) && PiecesOk(key) && IsWs(mid) && IsWs(before2) && IsWs(after) && Neutral(ValueText(v))
    ensures Neutral(before + StrText(key) + mid + ":" + before2 + ValueText(v) + after)
  {
    StrIsNeutral(key);
    Padded(before, Str(key), mid);
    Padded(before2, v, after);
    Joined(before + StrText(key) + mid, ":", before2 + ValueText(v) + after);
    assert before + StrText(key) + mid + ":" + before2 + ValueText(v) + after
        == before + StrText(key) + mid + ":" + (before2 + ValueText(v) + after);
  }

  // ---- extraction inverts embedding --------------------------------------------------------------

  /** The scanner runs through quiet text. */
  lemma {:induction false} EndAfterQuiet(raw: string, i: nat, s: Scan, t: string)
    requires i + |t| <= |raw| && raw[i..i + |t|] == t && Quiet(s, t)
    ensures End(raw, i, s) == End(raw, i + |t|, Walk(s, t))
    decreases |t|
  {
    if t != "" {
      assert raw[i] == t[0];
      assert raw[i + 1..i + 1 + |t[1..]|] == t[1..];
      EndAfterQuiet(raw, i + 1, Step(s, t[0]), t[1..]);
    }
  }

  lemma SliceOfSlice(s: string, a: nat, b: nat, c: nat, d: nat)
    requires a <= b <= |s| && c <= d <= b - a
    ensures s[a..b][c..d] == s[a + c..a + d]
  {
    var slice := s[a..b];
    assert |slice[c..d]| == |s[a + c..a + d]|;
    forall k | 0 <= k < d - c
      ensures slice[c..d][k] == s[a + c..a + d][k]
    {
      assert slice[c..d][k] == slice[c + k] == s[a + c + k];
    }
  }

  /** From the opening brace of an object the scanner stops right after its closing brace. */
  lemma EndOfObject(raw: string, start: nat, ms: Members)
    requires MembersOk(ms)
    requires var t := ValueText(Object(ms)); start + |t| <= |raw| && raw[start..start + |t|] == t
    ensures End(raw, start, Scan(0, false, false)) == Some(start + |ValueText(Object(ms))|)
  {
    var inner := MembersText(ms);
    var t := ['{'] + inner + ['}'];
    assert t == ValueText(Object(ms));
    MembersAreNeutral(ms);
    assert t[0] == '{' && t[|t| - 1] == '}' && t[1..|t| - 1] == inner;
    assert raw[start] == raw[start..start + |t|][0] && raw[start + |t| - 1] == raw[start..start + |t|][|t| - 1];
    SliceOfSlice(raw, start, start + |t|, 1, |t| - 1);
    assert raw[start + 1..start + 1 + |inner|] == inner;
    EndAfterQuiet(raw, start + 1, Scan(1, false, false), inner);
    assert End(raw, start, Scan(0, false, false)) == End(raw, start + 1, Scan(1, false, false));
    assert End(raw, start + 1 + |inner|, Scan(1, false, false)) == Some(start + |t|);
  }

  lemma {:induction false} TrimLeftEmbedded(a: string, b: string)
    requires b != "" && !IsSpace(b[0])
    ensures TrimLeft(a + b) == TrimLeft(a) + b
    decreases |a|
  {
    if a == "" {
      assert a + b == b;
    } else if IsSpace(a[0]) {
      assert (a + b)[1..] == a[1..] + b;
      TrimLeftEmbedded(a[1..], b);
    }
  }

  lemma {:induction false} TrimRightEmbedded(a: string, b: string)
    requires a != "" && !IsSpace(a[|a| - 1])
    ensures TrimRight(a + b) == a + TrimRight(b)
    decreases |b|
  {
    if b == "" {
      assert a + b == a;
    } else if IsSpace(b[|b| - 1]) {
      assert (a + b)[..|a + b| - 1] == a + b[..|b| - 1];
      TrimRightEmbedded(a, b[..|b| - 1]);
    }
  }

  /** Trimming around a text that neither starts nor ends with white space leaves it whole. */
  lemma TrimEmbedded(prefix: string, t: string, suffix: string)
    requires t != "" && !IsSpace(t[0]) && !IsSpace(t[|t| - 1])
    ensures Trim(prefix + t + suffix) == TrimLeft(prefix) + t + TrimRight(suffix)
  {
    Associate(prefix, t, suffix);
    assert (t + suffix)[0] == t[0];
    TrimLeftEmbedded(prefix, t + suffix);
    Associate(TrimLeft(prefix), t, suffix);
    TrimRightEmbedded(TrimLeft(prefix) + t, suffix);
  }

  lemma Associate(a: string, b: string, c: string)
    ensures a + b + c == a + (b + c)
  {
  }

  lemma {:induction false} FirstBrace(prefix: string, t: string)
    requires '{' !in prefix && t != "" && t[0] == '{'
    ensures IndexOf(prefix + t, '{') == |prefix|
    decreases |prefix|
  {
    if prefix == "" {
      assert prefix + t == t;
    } else {
      assert (prefix + t)[1..] == prefix[1..] + t;
      FirstBrace(prefix[1..], t);
    }
  }

  lemma ObjectEnds(ms: Members)
    ensures var t := ValueText(Object(ms));
            t != "" && t[0] == '{' && t[|t| - 1] == '}' && Trim(t) == t
  {
    var t := ValueText(Object(ms));
    assert t[0] == '{' && t[|t| - 1] == '}';
    assert !IsSpace('{') && !IsSpace('}');
  }

  /** Between any prefix without an opening brace and any suffix, the object is picked. */
  lemma PickObject(prefix: string, ms: Members, suffix: string)
    requires MembersOk(ms) && '{' !in prefix
    ensures Pick(prefix + ValueText(Object(ms)) + suffix) == ValueText(Object(ms))
  {
    var t := ValueText(Object(ms));
    var raw := prefix + t + suffix;
    ObjectEnds(ms);
    assert raw == prefix + (t + suffix) && (t + suffix)[0] == '{';
    FirstBrace(prefix, t + suffix);
    assert raw[|prefix|..|prefix| + |t|] == t;
    EndOfObject(raw, |prefix|, ms);
  }

  lemma {:induction false} TrimLeftHasNoBrace(s: string)
    requires '{' !in s
    ensures '{' !in TrimLeft(s)
  {
    if s != "" && IsSpace(s[0]) {
      TrimLeftHasNoBrace(s[1..]);
    }
  }

  /**
   * Extraction inverts embedding: whatever object text stands after a prefix without an opening brace, and
   * whatever follows it, exactly that object comes out, unless the trimmed text starts with a code fence.
   */
  lemma ExtractionInvertsEmbedding(prefix: string, ms: Members, suffix: string)
    requires MembersOk(ms) && '{' !in prefix
    requires !HasPrefix(Trim(prefix + ValueText(Object(ms)) + suffix), FENCE)
    ensures Extract(prefix + ValueText(Object(ms)) + suffix) == ValueText(Object(ms))
  {
    ObjectEnds(ms);
    TrimEmbedded(prefix, ValueText(Object(ms)), suffix);
    TrimLeftHasNoBrace(prefix);
    PickObject(TrimLeft(prefix), ms, TrimRight(suffix));
  }

  /** Cutting at the last fence, which lies behind the object, leaves the object whole. */
  lemma PickFenced(lead: string, ms: Members, rest: string, close: nat)
    requires MembersOk(ms) && '{' !in lead && OccursAt(rest, FENCE, close)
    ensures var inner := lead + (ValueText(Object(ms)) + rest);
            var i := LastIndexOf(inner, FENCE);
            i >= 0 && Pick(Trim(inner[..i])) == ValueText(Object(ms))
  {
    var t := ValueText(Object(ms));
    var inner := lead + (t + rest);
    var at := |lead| + |t| + close;
    assert inner[at..at + |FENCE|] == rest[close..close + |FENCE|];
    assert OccursAt(inner, FENCE, at);
    var i := LastIndexOf(inner, FENCE);
    var tail := rest[..i - |lead| - |t|];
    assert inner[..i] == lead + t + tail;
    ObjectEnds(ms);
    TrimEmbedded(lead, t, tail);
    TrimLeftHasNoBrace(lead);
    PickObject(TrimLeft(lead), ms, TrimRight(tail));
  }

  /** What stands before the object once the opening fence is taken off. */
  function Lead(prefix: string): string {
    TrimPrefix(TrimPrefix(TrimPrefix(TrimLeft(prefix), "```json"), "```JSON"), FENCE)
  }

  lemma StripsOne(lead: string, x: string, p: string)
    requires '{' !in lead && '{' !in p && x != "" && x[0] == '{'
    ensures TrimPrefix(lead + x, p) == TrimPrefix(lead, p) + x && '{' !in TrimPrefix(lead, p)
  {
    if p <= lead + x {
      assert (lead + x)[|lead|] == '{';
      assert |p| <= |lead| && p == lead[..|p|];
      assert (lead + x)[|p|..] == lead[|p|..] + x;
    } else {
      assert p <= lead ==> p <= lead + x;
    }
  }

  lemma StripsFence(prefix: string, x: string)
    requires '{' !in TrimLeft(prefix) && x != "" && x[0] == '{'
    ensures TrimPrefix(TrimPrefix(TrimPrefix(TrimLeft(prefix) + x, "```json"), "```JSON"), FENCE) == Lead(prefix) + x
    ensures '{' !in Lead(prefix)
  {
    var lead := TrimLeft(prefix);
    StripsOne(lead, x, "```json");
    StripsOne(TrimPrefix(lead, "```json"), x, "```JSON");
    StripsOne(TrimPrefix(TrimPrefix(lead, "```json"), "```JSON"), x, FENCE);
  }

  predicate Occurs(s: string, p: string) {
    exists k :: 0 <= k < |s| && OccursAt(s, p, k)
  }

  /** No fence spans the end of the object. */
  lemma FenceOnOneSide(before: string, rest: string, k: int)
    requires before != "" && before[|before| - 1] == '}' && OccursAt(before + rest, FENCE, k)
    ensures if k < |before| then OccursAt(before, FENCE, k) else OccursAt(rest, FENCE, k - |before|)
  {
    var all := before + rest;
    assert all[k] == FENCE[0] && all[k + 1] == FENCE[1] && all[k + 2] == FENCE[2];
    if k < |before| {
      assert all[|before| - 1] == '}';
      assert all[k..k + 3] == before[k..k + 3];
    } else {
      assert all[k..k + 3] == rest[k - |before|..k - |before| + 3];
    }
  }

  /** Nothing that comes out of a text cut short of the object is the object. */
  lemma CutIsNotPicked(lead: string, t: string, m: nat)
    requires '{' !in lead && m < |t| && t[0] == '{'
    ensures Pick(Trim(lead + t[..m])) != t
  {
    if m == 0 {
      assert lead + t[..m] == lead;
      NoBraceLeft(lead);
    } else {
      var part := TrimRight(t[..m]);
      TrimHead(lead, t[..m]);
      TrimLeftHasNoBrace(lead);
      FirstBrace(TrimLeft(lead), part);
      PickIsNoLonger(TrimLeft(lead), part);
      TrimRightIsNoLonger(t[..m]);
    }
  }

  lemma NoBraceLeft(s: string)
    requires '{' !in s
    ensures '{' !in Trim(s) && Pick(Trim(s)) == Trim(s)
  {
    TrimLeftHasNoBrace(s);
    TrimRightIsNoLonger(TrimLeft(s));
  }

  lemma {:induction false} TrimRightIsNoLonger(s: string)
    ensures |TrimRight(s)| <= |s| && TrimRight(s) == s[..|TrimRight(s)|]
  {
    if s != "" && IsSpace(s[|s| - 1]) {
      TrimRightIsNoLonger(s[..|s| - 1]);
    }
  }

  lemma {:induction false} TrimLeftIsNoLonger(s: string)
    ensures |TrimLeft(s)| <= |s|
  {
    if s != "" && IsSpace(s[0]) {
      TrimLeftIsNoLonger(s[1..]);
    }
  }

  lemma {:induction false} TrimRightKeepsHead(a: string, b: string)
    requires b != "" && !IsSpace(b[0])
    ensures TrimRight(a + b) == a + TrimRight(b) && TrimRight(b) != "" && TrimRight(b)[0] == b[0]
    decreases |b|
  {
    if IsSpace(b[|b| - 1]) {
      assert (a + b)[..|a + b| - 1] == a + b[..|b| - 1];
      TrimRightKeepsHead(a, b[..|b| - 1]);
    }
  }

  lemma TrimHead(lead: string, b: string)
    requires b != "" && !IsSpace(b[0])
    ensures Trim(lead + b) == TrimLeft(lead) + TrimRight(b) && TrimRight(b) != "" && TrimRight(b)[0] == b[0]
  {
    TrimLeftEmbedded(lead, b);
    TrimRightKeepsHead(TrimLeft(lead), b);
  }

  lemma TrimIsNoLonger(s: string)
    ensures |Trim(s)| <= |s|
  {
    TrimLeftIsNoLonger(s);
    TrimRightIsNoLonger(TrimLeft(s));
  }

  lemma PickIsSlice(raw: string)
    requires IndexOf(raw, '{') >= 0
    ensures Pick(raw) == raw || |Pick(raw)| <= |raw| - IndexOf(raw, '{')
  {
    var start := IndexOf(raw, '{');
    var end := End(raw, start, Scan(0, false, false));
    var j := LastIndexOf(raw, ['}']);
    if end.Some? {
      TrimIsNoLonger(raw[start..end.value]);
    } else if j > start {
      TrimIsNoLonger(raw[start..j + 1]);
    }
  }

  /** What is picked is no longer than what stands from the first brace on, or starts with something else. */
  lemma PickIsNoLonger(lead: string, part: string)
    requires part != "" && '{' !in lead && IndexOf(lead + part, '{') == |lead|
    ensures |Pick(lead + part)| <= |part| || (Pick(lead + part) == lead + part && lead != "" && lead[0] != '{')
  {
    PickIsSlice(lead + part);
  }

  /** The cut at the last fence keeps the object exactly when a fence follows it, or none stands anywhere. */
  lemma PickFencedExactly(lead: string, ms: Members, rest: string)
    requires MembersOk(ms) && '{' !in lead
    ensures var t := ValueText(Object(ms));
            var inner := lead + (t + rest);
            var i := LastIndexOf(inner, FENCE);
            Pick(Trim(if i >= 0 then inner[..i] else inner)) == t <==> Occurs(rest, FENCE) || !Occurs(lead + t, FENCE)
  {
    var t := ValueText(Object(ms));
    var inner := lead + (t + rest);
    var i := LastIndexOf(inner, FENCE);
    ObjectEnds(ms);
    assert inner == (lead + t) + rest && (lead + t)[|lead + t| - 1] == '}';
    if Occurs(rest, FENCE) {
      var close :| 0 <= close < |rest| && OccursAt(rest, FENCE, close);
      PickFenced(lead, ms, rest, close);
    } else {
      if i >= 0 {
        FenceOnOneSide(lead + t, rest, i);
      }
      FenceBefore(lead, t, rest);
      if Occurs(lead + t, FENCE) {
        CutInside(lead, t, rest, i);
      } else {
        TrimEmbedded(lead, t, rest);
        TrimLeftHasNoBrace(lead);
        PickObject(TrimLeft(lead), ms, TrimRight(rest));
        assert inner == lead + t + rest;
      }
    }
  }

  lemma FenceBefore(lead: string, t: string, rest: string)
    ensures Occurs(lead + t, FENCE) ==> LastIndexOf(lead + (t + rest), FENCE) >= 0
  {
    if Occurs(lead + t, FENCE) {
      var k :| 0 <= k < |lead + t| && OccursAt(lead + t, FENCE, k);
      assert (lead + (t + rest))[k..k + |FENCE|] == (lead + t)[k..k + |FENCE|];
      assert OccursAt(lead + (t + rest), FENCE, k);
    }
  }

  lemma CutInside(lead: string, t: string, rest: string, i: nat)
    requires '{' !in lead && t != "" && t[0] == '{' && i < |lead + t|
    ensures Pick(Trim((lead + (t + rest))[..i])) != t
  {
    var cut := (lead + (t + rest))[..i];
    if i <= |lead| {
      assert cut == lead[..i];
      NoBraceLeft(cut);
    } else {
      assert cut == lead + t[..i - |lead|];
      CutIsNotPicked(lead, t, i - |lead|);
    }
  }

  /**
   * Inside a code fence, whatever its info string, the object comes out if and only if a fence follows it, or no further
   * fence stands before it or within its strings.
   */
  lemma ExtractionFromFence(prefix: string, ms: Members, suffix: string)
    requires MembersOk(ms) && '{' !in prefix
    requires HasPrefix(Trim(prefix + ValueText(Object(ms)) + suffix), FENCE)
    ensures Extract(prefix + ValueText(Object(ms)) + suffix) == ValueText(Object(ms)) <==>
            Occurs(TrimRight(suffix), FENCE) || !Occurs(Lead(prefix) + ValueText(Object(ms)), FENCE)
  {
    var t := ValueText(Object(ms));
    ObjectEnds(ms);
    TrimObject(prefix, ms, suffix);
    StripsFence(prefix, t + TrimRight(suffix));
    PickFencedExactly(Lead(prefix), ms, TrimRight(suffix));
  }

  lemma TrimObject(prefix: string, ms: Members, suffix: string)
    requires '{' !in prefix
    ensures Trim(prefix + ValueText(Object(ms)) + suffix) == TrimLeft(prefix) + (ValueText(Object(ms)) + TrimRight(suffix))
    ensures '{' !in TrimLeft(prefix)
  {
    ObjectEnds(ms);
    TrimEmbedded(prefix, ValueText(Object(ms)), suffix);
    TrimLeftHasNoBrace(prefix);
    Associate(TrimLeft(prefix), ValueText(Object(ms)), TrimRight(suffix));
  }
}
