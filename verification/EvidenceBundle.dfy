/**
 * What an edge sends for one evidence request (cmd/yufeng-edge/traffic_review_runtime.go): its byte budget is
 * re-divided before every handle, and structured content that is too large is degraded step by step.
 */
module EvidenceBundle {
  import opened Text

  type Bytes = seq<int>

  datatype Field = Field(selector: string, length: int, charset: string, digest: string, value: string)

  /** The encoder of one structured field; None is an encoding error. */
  type Marshal = seq<Field> -> Option<Bytes>

  datatype Fitted = Fits(content: Bytes) | Nothing | EncodingError

  // ---- degradation -------------------------------------------------------------------------------

  /** The fields with every value from index i on blanked. */
  function Blanked(fields: seq<Field>, i: nat): (r: seq<Field>)
    ensures |r| == |fields|
  {
    if fields == [] then []
    else
      var n := |fields| - 1;
      Blanked(fields[..n], i) + [if n < i then fields[n] else fields[n].(value := "")]
  }

  lemma {:induction false} BlankedAt(fields: seq<Field>, i: nat, k: nat)
    requires k < |fields|
    ensures Blanked(fields, i)[k] == if k < i then fields[k] else fields[k].(value := "")
  {
    if k < |fields| - 1 {
      BlankedAt(fields[..|fields| - 1], i, k);
    }
  }

  lemma BlankedAll(fields: seq<Field>, i: nat)
    ensures forall k :: 0 <= k < |fields| ==> Blanked(fields, i)[k] == if k < i then fields[k] else fields[k].(value := "")
  {
    forall k | 0 <= k < |fields|
      ensures Blanked(fields, i)[k] == if k < i then fields[k] else fields[k].(value := "")
    {
      BlankedAt(fields, i, k);
    }
  }

  /**
   * The chain of ever lossier forms: 0 is the input, 1..n blank values from the end, n+1..2n drop blank fields
   * from the end.
   */
  function Lossier(fields: seq<Field>, r: nat): seq<Field>
    requires r <= 2 * |fields|
  {
    if r <= |fields| then Blanked(fields, |fields| - r) else Blanked(fields, 0)[..2 * |fields| - r]
  }

  /** The search ends at this form: it fits, or it cannot be encoded. */
  predicate Stops(form: seq<Field>, limit: int, allowEmpty: bool, marshal: Marshal) {
    && (allowEmpty || form != [])
    && (marshal(form).None? || |marshal(form).value| <= limit)
  }

  function Taken(form: seq<Field>, marshal: Marshal): Fitted {
    if marshal(form).None? then EncodingError else Fits(marshal(form).value)
  }

  /** Form r up to the number of fields has exactly the last r values blanked; after that only blank fields are left, one less each. */
  lemma LossierExactly(fields: seq<Field>, r: nat)
    requires r <= 2 * |fields|
    ensures |Lossier(fields, r)| == if r <= |fields| then |fields| else 2 * |fields| - r
    ensures forall k :: 0 <= k < |Lossier(fields, r)| ==>
              Lossier(fields, r)[k] == if k < |fields| - r then fields[k] else fields[k].(value := "")
  {
    if r <= |fields| {
      BlankedAll(fields, |fields| - r);
    } else {
      BlankedAll(fields, 0);
    }
  }

  /** A field is dropped only when no value is left anywhere. */
  lemma DropsLast(fields: seq<Field>, r: nat)
    requires r <= 2 * |fields|
    ensures |Lossier(fields, r)| < |fields| ==> forall k :: 0 <= k < |Lossier(fields, r)| ==> Lossier(fields, r)[k].value == ""
    ensures forall k :: 0 <= k < |Lossier(fields, r)| ==>
              Lossier(fields, r)[k] == fields[k] || Lossier(fields, r)[k] == fields[k].(value := "")
    ensures Lossier(fields, 0) == fields
  {
    BlankedAll(fields, 0);
    BlankedAll(fields, |fields|);
    if r <= |fields| {
      BlankedAll(fields, |fields| - r);
    }
  }

  /** Each form of the chain carries no more than the one before. */
  lemma EachIsLossier(fields: seq<Field>, r: nat)
    requires r < 2 * |fields|
    ensures |Lossier(fields, r + 1)| <= |Lossier(fields, r)|
    ensures forall k :: 0 <= k < |Lossier(fields, r + 1)| ==>
              Lossier(fields, r + 1)[k] == Lossier(fields, r)[k] || Lossier(fields, r + 1)[k].value == ""
  {
    BlankedAll(fields, 0);
    if r < |fields| {
      BlankedAll(fields, |fields| - r);
      BlankedAll(fields, |fields| - r - 1);
    }
  }

  /** The plain search along the chain, from form q on. */
  function First(fields: seq<Field>, q: nat, limit: int, allowEmpty: bool, marshal: Marshal): Fitted
    requires q <= 2 * |fields| + 1
    decreases 2 * |fields| + 1 - q
  {
    if q > 2 * |fields| then Nothing
    else if Stops(Lossier(fields, q), limit, allowEmpty, marshal) then Taken(Lossier(fields, q), marshal)
    else First(fields, q + 1, limit, allowEmpty, marshal)
  }

  lemma {:induction false} FirstSkips(fields: seq<Field>, q: nat, rank: nat, limit: int, allowEmpty: bool, marshal: Marshal)
    requires q <= rank <= 2 * |fields| + 1
    requires forall p :: q <= p < rank ==> !Stops(Lossier(fields, p), limit, allowEmpty, marshal)
    ensures First(fields, q, limit, allowEmpty, marshal) == First(fields, rank, limit, allowEmpty, marshal)
    decreases rank - q
  {
    if q < rank {
      FirstSkips(fields, q + 1, rank, limit, allowEmpty, marshal);
    }
  }

  /** No form up to r ends the search. */
  ghost predicate Passed(fields: seq<Field>, r: int, limit: int, allowEmpty: bool, marshal: Marshal)
    requires r <= 2 * |fields|
  {
    forall q :: 0 <= q <= r ==> !Stops(Lossier(fields, q), limit, allowEmpty, marshal)
  }

  lemma ChainStarts(fields: seq<Field>)
    ensures Lossier(fields, 0) == fields
  {
    BlankedAll(fields, |fields|);
  }

  /** Blanking one more value from the end is the next form of the chain. */
  lemma BlankNext(fields: seq<Field>, index: nat)
    requires index < |fields|
    ensures var form := Lossier(fields, |fields| - index - 1);
            Lossier(fields, |fields| - index) == form[index := form[index].(value := "")]
  {
    BlankedAll(fields, index);
    BlankedAll(fields, index + 1);
  }

  /** The first loop: blank values from the end until a form fits. */
  method BlankValues(bounded: array<Field>, fields: seq<Field>, limit: int, allowEmpty: bool, marshal: Marshal)
    returns (r: Fitted, ghost rank: nat)
    requires bounded[..] == fields && Passed(fields, 0, limit, allowEmpty, marshal)
    modifies bounded
    ensures r != Nothing ==>
              && rank <= |fields| && Stops(Lossier(fields, rank), limit, allowEmpty, marshal)
              && r == Taken(Lossier(fields, rank), marshal) && Passed(fields, rank - 1, limit, allowEmpty, marshal)
    ensures r == Nothing ==> bounded[..] == Lossier(fields, |fields|) && Passed(fields, |fields|, limit, allowEmpty, marshal)
  {
    ChainStarts(fields);
    var index := |fields|;
    rank := 0;
    while index > 0
      invariant 0 <= index <= |fields| == bounded.Length && rank == |fields| - index
      invariant bounded[..] == Lossier(fields, rank)
      invariant Passed(fields, rank, limit, allowEmpty, marshal)
    {
      index := index - 1;
      BlankNext(fields, index);
      ghost var before := bounded[..];
      rank := rank + 1;
      if bounded[index].value == "" {
        SameForm(before, index);
        PassedMore(fields, rank, limit, allowEmpty, marshal);
        continue;
      }
      bounded[index] := bounded[index].(value := "");
      assert bounded[..] == before[index := before[index].(value := "")];
      if Stops(bounded[..], limit, allowEmpty, marshal) {
        return Taken(bounded[..], marshal), rank;
      }
      PassedMore(fields, rank, limit, allowEmpty, marshal);
    }
    r := Nothing;
  }

  lemma SameForm(form: seq<Field>, index: nat)
    requires index < |form| && form[index].value == ""
    ensures form[index := form[index].(value := "")] == form
  {
  }

  lemma PassedMore(fields: seq<Field>, r: nat, limit: int, allowEmpty: bool, marshal: Marshal)
    requires 0 < r <= 2 * |fields| && Passed(fields, r - 1, limit, allowEmpty, marshal)
    requires !Stops(Lossier(fields, r), limit, allowEmpty, marshal)
    ensures Passed(fields, r, limit, allowEmpty, marshal)
  {
  }

  /** The second loop: drop fields from the end until a form fits. */
  method DropFields(bounded: array<Field>, fields: seq<Field>, limit: int, allowEmpty: bool, marshal: Marshal)
    returns (r: Fitted, ghost rank: nat)
    requires bounded[..] == Lossier(fields, |fields|) && Passed(fields, |fields|, limit, allowEmpty, marshal)
    ensures r != Nothing ==>
              && rank <= 2 * |fields| && Stops(Lossier(fields, rank), limit, allowEmpty, marshal)
              && r == Taken(Lossier(fields, rank), marshal) && Passed(fields, rank - 1, limit, allowEmpty, marshal)
    ensures r == Nothing ==> Passed(fields, 2 * |fields|, limit, allowEmpty, marshal)
  {
    var length := |fields|;
    while length > 0
      invariant 0 <= length <= |fields| == bounded.Length
      invariant Passed(fields, 2 * |fields| - length, limit, allowEmpty, marshal)
    {
      length := length - 1;
      assert bounded[..length] == bounded[..][..length] == Lossier(fields, 2 * |fields| - length);
      if Stops(bounded[..length], limit, allowEmpty, marshal) {
        return Taken(bounded[..length], marshal), 2 * |fields| - length;
      }
    }
    r, rank := Nothing, 0;
  }

  /** fitStructuredEvidence: the first form of the chain that fits, or nothing if none does. */
  method FitStructuredEvidence(fields: seq<Field>, limit: int, allowEmpty: bool, marshal: Marshal)
    returns (r: Fitted, ghost rank: nat)
    ensures limit <= 0 ==> r == Nothing
    ensures limit > 0 && r != Nothing ==>
              && rank <= 2 * |fields| && Stops(Lossier(fields, rank), limit, allowEmpty, marshal)
              && r == Taken(Lossier(fields, rank), marshal) && Passed(fields, rank - 1, limit, allowEmpty, marshal)
    ensures limit > 0 && r == Nothing ==> Passed(fields, 2 * |fields|, limit, allowEmpty, marshal)
    ensures r.Fits? ==> |r.content| <= limit
  {
    if limit <= 0 {
      return Nothing, 0;
    }
    var bounded := new Field[|fields|](k requires 0 <= k < |fields| => fields[k]);
    assert bounded[..] == fields;
    ChainStarts(fields);
    if Stops(bounded[..], limit, allowEmpty, marshal) {
      return Taken(bounded[..], marshal), 0;
    }
    r, rank := BlankValues(bounded, fields, limit, allowEmpty, marshal);
    if r == Nothing {
      r, rank := DropFields(bounded, fields, limit, allowEmpty, marshal);
    }
  }

  // ---- the bundle --------------------------------------------------------------------------------

  /** A vault document; `valid` is what validateEvidenceDocument finds beyond the two mandatory texts. */
  datatype Document = Document(
    verb: Bytes, route: Bytes, query: seq<Field>, hasBody: bool, body: seq<Field>, valid: bool,
    encodeQuery: Marshal, encodeBody: Marshal)

  /** One field of a document that may be sent. */
  datatype Part = Plain(name: string, content: Bytes) | Structured(
    name: string, content: Bytes, fields: seq<Field>, allowEmpty: bool, marshal: Marshal)

  datatype Fragment = Fragment(handle: string, field: string, content: Bytes)

  datatype Request = Request(handles: seq<string>, allowed: seq<string>, maxBytes: int)

  datatype Outcome = Bundle(fragments: seq<Fragment>) | Rejected

  /** 32 KiB of model input, less 2 KiB for the prompt around it. */
  const MODEL_EVIDENCE_BYTES := 30720
  const FIELDS := {"method", "path", "query", "body"}

  function BudgetFor(maxBytes: int): int {
    if maxBytes > MODEL_EVIDENCE_BYTES then MODEL_EVIDENCE_BYTES else maxBytes
  }

  function Volume(fragments: seq<Fragment>): nat {
    if fragments == [] then 0 else Volume(fragments[..|fragments| - 1]) + |fragments[|fragments| - 1].content|
  }

  function Flat(blocks: seq<seq<Fragment>>): seq<Fragment> {
    if blocks == [] then [] else Flat(blocks[..|blocks| - 1]) + blocks[|blocks| - 1]
  }

  lemma {:induction false} BytesAdd(a: seq<Fragment>, b: seq<Fragment>)
    ensures Volume(a + b) == Volume(a) + Volume(b)
    decreases |b|
  {
    if b == [] {
      assert a + b == a;
    } else {
      BytesAdd(a, b[..|b| - 1]);
      assert (a + b)[..|a + b| - 1] == a + b[..|b| - 1];
    }
  }

  /** What is sent for a part within `limit` bytes: all of it, else the first form of the chain that fits, else nothing. */
  function Chosen(part: Part, limit: int): Option<Bytes> {
    if |part.content| <= limit then Some(part.content)
    else
      match part
      case Plain(_, _) => Some([])
      case Structured(_, _, fields, allowEmpty, marshal) =>
        if limit <= 0 then Some([])
        else
          match First(fields, 0, limit, allowEmpty, marshal)
          case EncodingError => None
          case Nothing => Some([])
          case Fits(c) => Some(c)
  }

  /** One more part, choosing from what the fragments before left of the share. */
  function Added(handle: string, before: seq<Fragment>, part: Part, allowed: seq<string>, share: int): Option<seq<Fragment>> {
    if part.name !in allowed || |part.content| == 0 || Volume(before) >= share then Some(before)
    else
      match Chosen(part, share - Volume(before))
      case None => None
      case Some(content) =>
        if content == [] then Some(before) else Some(before + [Fragment(handle, part.name, content)])
  }

  /** The fragments of the first i parts of a handle. */
  function Collected(handle: string, parts: seq<Part>, allowed: seq<string>, share: int, i: nat): Option<seq<Fragment>>
    requires i <= |parts|
  {
    if i == 0 then Some([])
    else
      match Collected(handle, parts, allowed, share, i - 1)
      case None => None
      case Some(before) => Added(handle, before, parts[i - 1], allowed, share)
  }

  lemma {:induction false} StaysNone(handle: string, parts: seq<Part>, allowed: seq<string>, share: int, i: nat, n: nat)
    requires i <= n <= |parts| && Collected(handle, parts, allowed, share, i).None?
    ensures Collected(handle, parts, allowed, share, n).None?
    decreases n
  {
    if i < n {
      StaysNone(handle, parts, allowed, share, i, n - 1);
    }
  }

  /** The parts of a document in the order they are tried. */
  function PartsFor(doc: Document): Option<seq<Part>> {
    var query := doc.encodeQuery(doc.query);
    var body := doc.encodeBody(doc.body);
    if (doc.query != [] && query.None?) || (doc.hasBody && body.None?) then None
    else Some(
      [Plain("method", doc.verb), Plain("path", doc.route)]
      + (if doc.query != [] then [Structured("query", query.value, doc.query, false, doc.encodeQuery)] else [])
      + (if doc.hasBody then [Structured("body", body.value, doc.body, true, doc.encodeBody)] else []))
  }

  /** What may be sent for a part within `limit` bytes: all of it, or a form of the chain; plain text only whole. */
  predicate SentFor(part: Part, content: Bytes, limit: int) {
    && content != [] && |content| <= limit
    && (|| content == part.content
        || (part.Structured? && IsForm(part.fields, part.marshal, content)))
  }

  /** The encoding of some form of the chain. */
  predicate IsForm(fields: seq<Field>, marshal: Marshal, content: Bytes) {
    exists r :: 0 <= r <= 2 * |fields| && marshal(Lossier(fields, r)) == Some(content)
  }

  method PartsOf(doc: Document) returns (parts: Option<seq<Part>>)
    ensures parts == PartsFor(doc)
    ensures parts.Some? ==>
              |parts.value| >= 2 && parts.value[..2] == [Plain("method", doc.verb), Plain("path", doc.route)]
    ensures parts.Some? ==> forall k :: 0 <= k < |parts.value| ==> parts.value[k].name in FIELDS
    ensures parts.Some? ==> forall k :: 0 <= k < |parts.value| && parts.value[k].Structured? ==>
              parts.value[k].marshal == doc.encodeQuery || parts.value[k].marshal == doc.encodeBody
    ensures parts.None? ==> doc.encodeQuery(doc.query).None? || doc.encodeBody(doc.body).None?
  {
    var list := [Plain("method", doc.verb), Plain("path", doc.route)];
    if doc.query != [] {
      var content := doc.encodeQuery(doc.query);
      if content.None? {
        return None;
      }
      list := list + [Structured("query", content.value, doc.query, false, doc.encodeQuery)];
    }
    if doc.hasBody {
      var content := doc.encodeBody(doc.body);
      if content.None? {
        return None;
      }
      list := list + [Structured("body", content.value, doc.body, true, doc.encodeBody)];
    }
    parts := Some(list);
    assert list == PartsFor(doc).value;
  }

  /** The encoder never fails. */
  ghost predicate Encodes(marshal: Marshal) {
    forall fields: seq<Field> :: marshal(fields).Some?
  }

  /** What the search finds is a form of the chain within the limit; it fails only with the encoder. */
  lemma {:induction false} FirstOk(fields: seq<Field>, q: nat, limit: int, allowEmpty: bool, marshal: Marshal)
    requires q <= 2 * |fields| + 1
    ensures var r := First(fields, q, limit, allowEmpty, marshal);
            && (r.Fits? ==> |r.content| <= limit && IsForm(fields, marshal, r.content))
            && (r.EncodingError? ==> !Encodes(marshal))
    decreases 2 * |fields| + 1 - q
  {
    if q <= 2 * |fields| {
      if Stops(Lossier(fields, q), limit, allowEmpty, marshal) {
        assert marshal(Lossier(fields, q)).Some? ==> IsForm(fields, marshal, marshal(Lossier(fields, q)).value);
      } else {
        FirstOk(fields, q + 1, limit, allowEmpty, marshal);
      }
    }
  }

  lemma ChosenOk(part: Part, limit: int)
    requires limit > 0
    ensures var c := Chosen(part, limit);
            && (c.Some? && c.value != [] ==> SentFor(part, c.value, limit))
            && (c.None? ==> part.Structured? && !Encodes(part.marshal))
  {
    if part.Structured? {
      FirstOk(part.fields, 0, limit, part.allowEmpty, part.marshal);
    }
  }

  /** The bytes to send for one part, empty if none; None is an encoding error. */
  method Bounded(part: Part, limit: int) returns (content: Option<Bytes>)
    requires limit > 0
    ensures content == Chosen(part, limit)
  {
    if |part.content| <= limit {
      return Some(part.content);
    }
    match part {
      case Plain(_, _) =>
        content := Some([]);
      case Structured(_, _, fields, allowEmpty, marshal) =>
        var fitted, rank := FitStructuredEvidence(fields, limit, allowEmpty, marshal);
        FirstSkips(fields, 0, if fitted == Nothing then 2 * |fields| + 1 else rank, limit, allowEmpty, marshal);
        match fitted {
          case EncodingError => content := None;
          case Nothing => content := Some([]);
          case Fits(c) => content := Some(c);
        }
    }
  }

  method Add(handle: string, before: seq<Fragment>, used: nat, part: Part, allowed: seq<string>, share: int)
    returns (list: Option<seq<Fragment>>)
    requires used == Volume(before)
    ensures list == Added(handle, before, part, allowed, share)
  {
    if part.name !in allowed || |part.content| == 0 || used >= share {
      return Some(before);
    }
    var content := Bounded(part, share - used);
    if content.None? {
      return None;
    }
    if |content.value| == 0 {
      return Some(before);
    }
    list := Some(before + [Fragment(handle, part.name, content.value)]);
  }

  /** The loop over the parts of one handle. */
  method Collect(handle: string, parts: seq<Part>, allowed: seq<string>, share: int) returns (block: Option<seq<Fragment>>)
    ensures block == Collected(handle, parts, allowed, share, |parts|)
  {
    var list: seq<Fragment> := [];
    for i := 0 to |parts|
      invariant Collected(handle, parts, allowed, share, i) == Some(list)
    {
      var more := Add(handle, list, Volume(list), parts[i], allowed, share);
      if more.None? {
        StaysNone(handle, parts, allowed, share, i + 1, |parts|);
        return None;
      }
      list := more.value;
    }
    block := Some(list);
  }

  lemma VolumeOne(list: seq<Fragment>, f: Fragment)
    ensures Volume(list + [f]) == Volume(list) + |f.content|
  {
    assert (list + [f])[..|list|] == list;
  }

  /** A fragment that may stand in the block of this handle. */
  predicate Permitted(f: Fragment, handle: string, allowed: seq<string>, parts: seq<Part>, limit: int) {
    && f.handle == handle && f.field in allowed
    && exists k :: 0 <= k < |parts| && parts[k].name == f.field && SentFor(parts[k], f.content, limit)
  }

  predicate AllPermitted(list: seq<Fragment>, handle: string, allowed: seq<string>, parts: seq<Part>, limit: int) {
    forall k :: 0 <= k < |list| ==> Permitted(list[k], handle, allowed, parts, limit)
  }

  lemma AppendPermitted(
    before: seq<Fragment>, f: Fragment, handle: string, allowed: seq<string>, parts: seq<Part>, limit: int)
    requires AllPermitted(before, handle, allowed, parts, limit) && Permitted(f, handle, allowed, parts, limit)
    ensures AllPermitted(before + [f], handle, allowed, parts, limit)
  {
    forall k | 0 <= k < |before + [f]|
      ensures Permitted((before + [f])[k], handle, allowed, parts, limit)
    {
      assert k < |before| ==> (before + [f])[k] == before[k];
    }
  }

  lemma {:induction false} AddedOk(handle: string, before: seq<Fragment>, parts: seq<Part>, i: nat, allowed: seq<string>, share: int)
    requires i < |parts| && Volume(before) <= share && AllPermitted(before, handle, allowed, parts, share)
    ensures var list := Added(handle, before, parts[i], allowed, share);
            && (list.Some? ==> Volume(list.value) <= share && AllPermitted(list.value, handle, allowed, parts, share))
            && (list.None? ==> parts[i].Structured? && !Encodes(parts[i].marshal))
  {
    var part := parts[i];
    if part.name in allowed && |part.content| > 0 && Volume(before) < share {
      ChosenOk(part, share - Volume(before));
      var content := Chosen(part, share - Volume(before));
      if content.Some? && content.value != [] {
        var f := Fragment(handle, part.name, content.value);
        VolumeOne(before, f);
        assert SentFor(part, f.content, share);
        AppendPermitted(before, f, handle, allowed, parts, share);
      }
    }
  }

  /** A block stays within its share, holds only permitted fragments, and fails only with an encoder. */
  lemma {:induction false} CollectedOk(handle: string, parts: seq<Part>, allowed: seq<string>, share: int, i: nat)
    requires i <= |parts| && share >= 0
    ensures var block := Collected(handle, parts, allowed, share, i);
            && (block.Some? ==> Volume(block.value) <= share && AllPermitted(block.value, handle, allowed, parts, share))
            && (block.None? ==> exists k :: 0 <= k < i && parts[k].Structured? && !Encodes(parts[k].marshal))
  {
    if i > 0 {
      CollectedOk(handle, parts, allowed, share, i - 1);
      var before := Collected(handle, parts, allowed, share, i - 1);
      if before.Some? {
        AddedOk(handle, before.value, parts, i - 1, allowed, share);
      }
    }
  }

  /** A first part that is allowed and fits is always sent. */
  lemma {:induction false} CollectedFirst(handle: string, parts: seq<Part>, allowed: seq<string>, share: int, i: nat)
    requires 1 <= i <= |parts| && parts[0].name in allowed && 1 <= |parts[0].content| <= share
    ensures var block := Collected(handle, parts, allowed, share, i);
            block.Some? ==> block.value != []
  {
    if i > 1 {
      CollectedFirst(handle, parts, allowed, share, i - 1);
    } else {
      assert Collected(handle, parts, allowed, share, 0) == Some([]);
    }
  }

  // ---- the shares --------------------------------------------------------------------------------

  lemma DivAtLeast(r: int, m: int, q: int)
    requires m > 0 && r >= q * m
    ensures r / m >= q
  {
    if r / m < q {
      assert r < (r / m + 1) * m;
      MulLe(r / m + 1, q, m);
    }
  }

  lemma MulLe(a: int, b: int, c: int)
    requires a <= b && c >= 0
    ensures a * c <= b * c
  {
  }

  /**
   * Whatever the earlier handles used of their shares, the next share is no smaller than an equal split of the
   * whole budget, and enough is left for the rest.
   */
  lemma ShareHolds(left: int, rest: int, q: int, used: int)
    requires rest > 0 && q >= 0 && left >= q * rest
    requires used == 0 || 0 <= used <= left / rest
    ensures left / rest >= q
    ensures left - used >= q * (rest - 1)
  {
    DivAtLeast(left, rest, q);
    assert q * (rest - 1) == q * rest - q;
    if used > q {
      assert left >= (left / rest) * rest;
      MulLe(used, left / rest, rest);
      assert used * rest - used == used * (rest - 1);
      MulLe(q, used, rest - 1);
    }
  }

  predicate Distinct(names: seq<string>) {
    forall k, l :: 0 <= k < l < |names| ==> names[k] != names[l]
  }

  predicate WellFormed(request: Request) {
    && (forall k :: 0 <= k < |request.handles| ==> !Blank(request.handles[k])) && Distinct(request.handles)
    && (forall k :: 0 <= k < |request.allowed| ==> request.allowed[k] in FIELDS) && Distinct(request.allowed)
  }

  /** The two validation loops. */
  method Validate(names: seq<string>, fields: bool) returns (ok: bool)
    ensures ok <==> Distinct(names) && forall k :: 0 <= k < |names| ==> if fields then names[k] in FIELDS else !Blank(names[k])
  {
    var seen: set<string> := {};
    for i := 0 to |names|
      invariant seen == set k | 0 <= k < i :: names[k]
      invariant Distinct(names[..i])
      invariant forall k :: 0 <= k < i ==> if fields then names[k] in FIELDS else !Blank(names[k])
    {
      if (if fields then names[i] !in FIELDS else Blank(names[i])) || names[i] in seen {
        return false;
      }
      seen := seen + {names[i]};
    }
    assert names[..|names|] == names;
    ok := true;
  }

  /** A block of fragments of one handle: not empty, within its share, allowed fields only. */
  predicate BlockOk(block: seq<Fragment>, handle: string, allowed: seq<string>, share: int) {
    && block != [] && Volume(block) <= share
    && forall j :: 0 <= j < |block| ==> block[j].handle == handle && block[j].field in allowed && block[j].content != []
  }

  /** Every handle has its own block of fragments, within its own share of at least `least`. */
  predicate WithinShares(blocks: seq<seq<Fragment>>, shares: seq<int>, request: Request, least: int, n: nat) {
    && |blocks| == |shares| == n <= |request.handles|
    && forall k :: 0 <= k < n ==> BlockOk(blocks[k], request.handles[k], request.allowed, shares[k]) && shares[k] >= least
  }

  /** A valid document whose method fits the share, with encoders that work. */
  ghost predicate Sendable(doc: Document, share: int) {
    && doc.valid && doc.route != [] && 1 <= |doc.verb| <= share
    && Encodes(doc.encodeQuery) && Encodes(doc.encodeBody)
  }

  /** What a handle contributes within its share. */
  predicate ExactBlock(block: seq<Fragment>, handle: string, allowed: seq<string>, vault: map<string, Document>, share: int) {
    && handle in vault && vault[handle].valid && vault[handle].verb != [] && vault[handle].route != []
    && PartsFor(vault[handle]).Some?
    && var parts := PartsFor(vault[handle]).value;
       Collected(handle, parts, allowed, share, |parts|) == Some(block)
  }

  /** An equal split of what is left over the handles that are left. */
  function EqualShare(left: int, rest: int): int
    requires rest > 0
  {
    left / rest
  }

  /** Each share is an equal split of what the blocks before left. */
  predicate EqualShares(blocks: seq<seq<Fragment>>, shares: seq<int>, all: nat, budget: int) {
    && |blocks| == |shares| <= all
    && (blocks != [] ==>
          var n := |blocks| - 1;
          && EqualShares(blocks[..n], shares[..n], all, budget)
          && shares[n] == EqualShare(budget - Volume(Flat(blocks[..n])), all - n))
  }

  lemma {:induction false} EqualSharesMore(
    blocks: seq<seq<Fragment>>, shares: seq<int>, all: nat, budget: int, block: seq<Fragment>, share: int)
    requires |blocks| < all && EqualShares(blocks, shares, all, budget)
    requires share == EqualShare(budget - Volume(Flat(blocks)), all - |blocks|)
    ensures EqualShares(blocks + [block], shares + [share], all, budget)
  {
    assert (blocks + [block])[..|blocks|] == blocks && (shares + [share])[..|blocks|] == shares;
  }

  /** Each block is what its handle contributes within its share. */
  predicate ExactBlocks(blocks: seq<seq<Fragment>>, shares: seq<int>, request: Request, vault: map<string, Document>) {
    && |blocks| == |shares| <= |request.handles|
    && (blocks != [] ==>
          var n := |blocks| - 1;
          && ExactBlocks(blocks[..n], shares[..n], request, vault)
          && ExactBlock(blocks[n], request.handles[n], request.allowed, vault, shares[n]))
  }

  lemma {:induction false} ExactBlocksMore(
    blocks: seq<seq<Fragment>>, shares: seq<int>, request: Request, vault: map<string, Document>, block: seq<Fragment>,
    share: int)
    requires |blocks| < |request.handles| && ExactBlocks(blocks, shares, request, vault)
    requires ExactBlock(block, request.handles[|blocks|], request.allowed, vault, share)
    ensures ExactBlocks(blocks + [block], shares + [share], request, vault)
  {
    assert (blocks + [block])[..|blocks|] == blocks && (shares + [share])[..|blocks|] == shares;
  }

  /** Each block is what its handle contributes, and each share is an equal split of what the blocks before left. */
  predicate Exact(blocks: seq<seq<Fragment>>, shares: seq<int>, request: Request, vault: map<string, Document>, budget: int) {
    ExactBlocks(blocks, shares, request, vault) && EqualShares(blocks, shares, |request.handles|, budget)
  }

  lemma {:induction false} ExactMore(
    blocks: seq<seq<Fragment>>, shares: seq<int>, request: Request, vault: map<string, Document>, budget: int,
    block: seq<Fragment>, share: int)
    requires |blocks| < |request.handles| && Exact(blocks, shares, request, vault, budget)
    requires ExactBlock(block, request.handles[|blocks|], request.allowed, vault, share)
    requires share == EqualShare(budget - Volume(Flat(blocks)), |request.handles| - |blocks|)
    ensures Exact(blocks + [block], shares + [share], request, vault, budget)
  {
    ExactBlocksMore(blocks, shares, request, vault, block, share);
    EqualSharesMore(blocks, shares, |request.handles|, budget, block, share);
  }

  lemma {:induction false} ExactAt(
    blocks: seq<seq<Fragment>>, shares: seq<int>, request: Request, vault: map<string, Document>, k: nat)
    requires ExactBlocks(blocks, shares, request, vault) && k < |blocks|
    ensures ExactBlock(blocks[k], request.handles[k], request.allowed, vault, shares[k])
  {
    var n := |blocks| - 1;
    if k < n {
      ExactAt(blocks[..n], shares[..n], request, vault, k);
    }
  }

  /** The handle has a usable document, and some allowed field of it fits the share. */
  ghost predicate Delivers(handle: string, allowed: seq<string>, vault: map<string, Document>, share: int) {
    && handle in vault && vault[handle].valid && vault[handle].verb != [] && vault[handle].route != []
    && PartsFor(vault[handle]).Some?
    && var parts := PartsFor(vault[handle]).value;
       Collected(handle, parts, allowed, share, |parts|).Some? && Collected(handle, parts, allowed, share, |parts|).value != []
  }

  method HandleBlock(handle: string, allowed: seq<string>, vault: map<string, Document>, share: int)
    returns (block: Option<seq<Fragment>>)
    requires share >= 1
    ensures block.Some? <==> Delivers(handle, allowed, vault, share)
    ensures block.Some? ==> BlockOk(block.value, handle, allowed, share)
    ensures block.Some? ==> ExactBlock(block.value, handle, allowed, vault, share)
    ensures handle !in vault ==> block.None?
    ensures handle in vault && Sendable(vault[handle], share) && "method" in allowed ==> block.Some?
  {
    if handle !in vault || !vault[handle].valid || vault[handle].verb == [] || vault[handle].route == [] {
      return None;
    }
    var parts := PartsOf(vault[handle]);
    if parts.None? {
      return None;
    }
    block := Collect(handle, parts.value, allowed, share);
    CollectedOk(handle, parts.value, allowed, share, |parts.value|);
    if "method" in allowed && |vault[handle].verb| <= share {
      CollectedFirst(handle, parts.value, allowed, share, |parts.value|);
    }
    if block.Some? && |block.value| == 0 {
      block := None;
    }
  }

  /** Every requested document can be sent within `share`. */
  ghost predicate AllSendable(request: Request, vault: map<string, Document>, share: int) {
    && "method" in request.allowed
    && forall k :: 0 <= k < |request.handles| ==>
         request.handles[k] in vault && Sendable(vault[request.handles[k]], share)
  }

  function Reserve(least: int, rest: int): int {
    least * rest
  }

  /** The loop over the handles after the blocks so far: `left` bytes remain, enough for `least` each. */
  ghost predicate Filled(
    blocks: seq<seq<Fragment>>, shares: seq<int>, request: Request, vault: map<string, Document>, budget: int, least: int,
    left: int)
  {
    && WithinShares(blocks, shares, request, least, |blocks|)
    && Exact(blocks, shares, request, vault, budget)
    && left == budget - Volume(Flat(blocks)) && left >= Reserve(least, |request.handles| - |blocks|)
  }

  lemma {:induction false} ReserveStep(left: int, rest: int, least: int, used: int)
    requires rest > 0 && least >= 0 && left >= Reserve(least, rest)
    ensures EqualShare(left, rest) >= least
    ensures 0 <= used <= EqualShare(left, rest) ==> left - used >= Reserve(least, rest - 1)
  {
    ShareHolds(left, rest, least, 0);
    if 0 <= used <= EqualShare(left, rest) {
      ShareHolds(left, rest, least, used);
    }
  }

  /** What is left after a block of this volume still covers the reserve. */
  lemma LeftAfter(budget: int, used: int, left: int, rest: int, least: int, volume: int)
    requires rest > 0 && least >= 0 && left == budget - used && left >= Reserve(least, rest)
    requires 0 <= volume <= EqualShare(left, rest)
    ensures left - volume == budget - (used + volume) && left - volume >= Reserve(least, rest - 1)
  {
    ReserveStep(left, rest, least, volume);
  }

  lemma {:induction false} FilledMore(
    blocks: seq<seq<Fragment>>, shares: seq<int>, request: Request, vault: map<string, Document>, budget: int, least: int,
    left: int, block: seq<Fragment>)
    requires least >= 0 && |blocks| < |request.handles| && Filled(blocks, shares, request, vault, budget, least, left)
    requires var share := EqualShare(left, |request.handles| - |blocks|);
             && BlockOk(block, request.handles[|blocks|], request.allowed, share)
             && ExactBlock(block, request.handles[|blocks|], request.allowed, vault, share)
    ensures var share := EqualShare(left, |request.handles| - |blocks|);
            && Filled(blocks + [block], shares + [share], request, vault, budget, least, left - Volume(block))
            && Flat(blocks + [block]) == Flat(blocks) + block
  {
    var rest := |request.handles| - |blocks|;
    var share := EqualShare(left, rest);
    ReserveStep(left, rest, least, 0);
    LeftAfter(budget, Volume(Flat(blocks)), left, rest, least, Volume(block));
    OneBlockMore(blocks, shares, request, least, block, share);
    ExactMore(blocks, shares, request, vault, budget, block, share);
    assert |request.handles| - |blocks + [block]| == rest - 1;
  }

  /** A document that cannot be sent: none, not a valid one, one that cannot be encoded, or nothing of it fits. */
  ghost predicate Unsendable(handle: string, allowed: seq<string>, vault: map<string, Document>, share: int) {
    handle in vault ==>
      var doc := vault[handle];
      || !doc.valid || doc.verb == [] || doc.route == []
      || !Encodes(doc.encodeQuery) || !Encodes(doc.encodeBody)
      || SendsFields([], handle, allowed, doc, share)
  }

  lemma PartsEncode(doc: Document)
    requires PartsFor(doc).Some?
    ensures forall k :: 0 <= k < |PartsFor(doc).value| && PartsFor(doc).value[k].Structured? ==>
              PartsFor(doc).value[k].marshal == doc.encodeQuery || PartsFor(doc).value[k].marshal == doc.encodeBody
  {
  }

  lemma NotDelivered(handle: string, allowed: seq<string>, vault: map<string, Document>, share: int)
    requires share >= 1 && !Delivers(handle, allowed, vault, share)
    ensures Unsendable(handle, allowed, vault, share)
  {
    if handle in vault && Encodes(vault[handle].encodeQuery) && Encodes(vault[handle].encodeBody) {
      var parts := PartsFor(vault[handle]).value;
      PartsEncode(vault[handle]);
      CollectedOk(handle, parts, allowed, share, |parts|);
      if vault[handle].valid && vault[handle].verb != [] && vault[handle].route != [] {
        ExactSendsFields([], handle, allowed, vault, share);
      }
    }
  }

  /** The blocks so far are what their handles contribute, and the next handle has nothing to send within its share. */
  ghost predicate FailsAt(
    blocks: seq<seq<Fragment>>, shares: seq<int>, request: Request, vault: map<string, Document>, budget: int)
  {
    && |blocks| < |request.handles| && Exact(blocks, shares, request, vault, budget)
    && Unsendable(request.handles[|blocks|], request.allowed, vault,
                  EqualShare(budget - Volume(Flat(blocks)), |request.handles| - |blocks|))
  }

  /** One turn of the loop over the handles. */
  method FillOne(
    request: Request, vault: map<string, Document>, ghost budget: int, ghost least: int, left: int, i: nat,
    ghost blocks: seq<seq<Fragment>>, ghost shares: seq<int>)
    returns (block: Option<seq<Fragment>>, ghost share: int)
    requires i == |blocks| < |request.handles| && least >= 1
    requires Filled(blocks, shares, request, vault, budget, least, left)
    ensures block.Some? ==>
              && Filled(blocks + [block.value], shares + [share], request, vault, budget, least, left - Volume(block.value))
              && Flat(blocks + [block.value]) == Flat(blocks) + block.value
    ensures share == EqualShare(left, |request.handles| - i)
    ensures block.None? ==> FailsAt(blocks, shares, request, vault, budget)
    ensures AllSendable(request, vault, least) ==> block.Some?
  {
    var part := EqualShare(left, |request.handles| - i);
    share := part;
    ReserveStep(left, |request.handles| - i, least, 0);
    block := HandleBlock(request.handles[i], request.allowed, vault, part);
    if block.Some? {
      FilledMore(blocks, shares, request, vault, budget, least, left, block.value);
    } else {
      NotDelivered(request.handles[i], request.allowed, vault, part);
    }
  }

  /** The loop over the handles. */
  method Fill(request: Request, vault: map<string, Document>, budget: int, ghost least: int)
    returns (r: Option<seq<Fragment>>, ghost blocks: seq<seq<Fragment>>, ghost shares: seq<int>)
    requires request.handles != [] && least >= 1 && budget >= least * |request.handles|
    ensures r.Some? ==> |blocks| == |request.handles| && r.value == Flat(blocks)
    ensures r.Some? ==> Filled(blocks, shares, request, vault, budget, least, budget - Volume(r.value))
    ensures r.None? ==> FailsAt(blocks, shares, request, vault, budget)
    ensures AllSendable(request, vault, least) ==> r.Some?
  {
    blocks, shares := [], [];
    var left := budget;
    var fragments: seq<Fragment> := [];
    for i := 0 to |request.handles|
      invariant |blocks| == i && fragments == Flat(blocks)
      invariant Filled(blocks, shares, request, vault, budget, least, left)
    {
      ghost var share;
      var block;
      block, share := FillOne(request, vault, budget, least, left, i, blocks, shares);
      if block.None? {
        return None, blocks, shares;
      }
      fragments, left := fragments + block.value, left - Volume(block.value);
      blocks, shares := blocks + [block.value], shares + [share];
    }
    r := Some(fragments);
  }

  /**
   * buildEvidenceBundle. The bundle stays within the request's budget and the model's; it uses only allowed fields;
   * every handle has a fragment, within a share that is at least an equal split of the budget. With the method
   * allowed and every method no longer than an equal split, a well-formed request is always answered.
   */
  method BuildEvidenceBundle(request: Request, vault: map<string, Document>)
    returns (r: Outcome, ghost blocks: seq<seq<Fragment>>, ghost shares: seq<int>)
    ensures r.Bundle? ==>
              && WellFormed(request) && 0 < |request.handles| <= BudgetFor(request.maxBytes) <= request.maxBytes
              && Answers(r.fragments, blocks, shares, request, vault)
              && SendsDocuments(blocks, shares, request, vault)
              && Volume(r.fragments) <= request.maxBytes && Volume(r.fragments) <= 30720
              && forall k :: 0 <= k < |shares| ==>
                   shares[k] >= (if request.maxBytes > 30720 then 30720 else request.maxBytes) / |request.handles|
    ensures WellFormed(request) && 0 < |request.handles| <= BudgetFor(request.maxBytes) ==>
              (AllSendable(request, vault, EqualShare(BudgetFor(request.maxBytes), |request.handles|)) ==> r.Bundle?)
    ensures WellFormed(request) && 0 < |request.handles| <= BudgetFor(request.maxBytes) && r.Rejected? ==>
              FailsAt(blocks, shares, request, vault, BudgetFor(request.maxBytes))
  {
    blocks, shares := [], [];
    var handlesOk := Validate(request.handles, false);
    var fieldsOk := Validate(request.allowed, true);
    if !handlesOk || !fieldsOk {
      return Rejected, [], [];
    }
    var budget := BudgetFor(request.maxBytes);
    if budget < |request.handles| || request.handles == [] {
      return Rejected, [], [];
    }
    ghost var least := EqualSplit(budget, |request.handles|);
    var fragments;
    fragments, blocks, shares := Fill(request, vault, budget, least);
    if fragments.None? {
      return Rejected, blocks, shares;
    }
    AnswersFrom(fragments.value, blocks, shares, request, vault, least);
    AnswersSendDocuments(fragments.value, blocks, shares, request, vault);
    r := Bundle(fragments.value);
  }

  /** The fragments answer the request: within budget, block by block, each within a share of an equal split or more. */
  predicate Answers(
    fragments: seq<Fragment>, blocks: seq<seq<Fragment>>, shares: seq<int>, request: Request, vault: map<string, Document>)
    requires request.handles != []
  {
    var budget := BudgetFor(request.maxBytes);
    var least := EqualShare(budget, |request.handles|);
    && fragments == Flat(blocks) && Volume(fragments) <= budget && least >= 1
    && WithinShares(blocks, shares, request, least, |request.handles|)
    && Exact(blocks, shares, request, vault, budget)
  }

  lemma ReserveNone(least: int)
    ensures Reserve(least, 0) == 0
  {
  }

  lemma {:induction false} AnswersFrom(
    fragments: seq<Fragment>, blocks: seq<seq<Fragment>>, shares: seq<int>, request: Request, vault: map<string, Document>,
    least: int)
    requires |blocks| == |request.handles| > 0 && fragments == Flat(blocks)
    requires least == EqualShare(BudgetFor(request.maxBytes), |request.handles|) >= 1
    requires Filled(blocks, shares, request, vault, BudgetFor(request.maxBytes), least,
                    BudgetFor(request.maxBytes) - Volume(fragments))
    ensures Answers(fragments, blocks, shares, request, vault)
  {
    ReserveNone(least);
  }

  lemma {:induction false} OneBlockMore(
    blocks: seq<seq<Fragment>>, shares: seq<int>, request: Request, least: int, block: seq<Fragment>, share: int)
    requires |blocks| < |request.handles| && WithinShares(blocks, shares, request, least, |blocks|) && share >= least
    requires BlockOk(block, request.handles[|blocks|], request.allowed, share)
    ensures WithinShares(blocks + [block], shares + [share], request, least, |blocks| + 1)
    ensures Flat(blocks + [block]) == Flat(blocks) + block
    ensures Volume(Flat(blocks + [block])) == Volume(Flat(blocks)) + Volume(block)
  {
    assert (blocks + [block])[..|blocks|] == blocks;
    BytesAdd(Flat(blocks), block);
  }

  lemma EqualSplit(budget: int, n: nat) returns (least: int)
    requires 0 < n <= budget
    ensures least == EqualShare(budget, n) >= 1 && budget >= least * n
  {
    DivAtLeast(budget, n, 1);
    least := budget / n;
  }

  // ---- what is sent of a document, field by field -----------------------------------------------------

  /** The four fields in the order they are tried. */
  const ORDER := ["method", "path", "query", "body"]

  /** The whole text of a field, empty if the document has none; None is an encoding error. */
  function Whole(doc: Document, k: nat): Option<Bytes>
    requires k < 4
  {
    if k == 0 then Some(doc.verb)
    else if k == 1 then Some(doc.route)
    else if k == 2 then (if doc.query == [] then Some([]) else doc.encodeQuery(doc.query))
    else if doc.hasBody then doc.encodeBody(doc.body) else Some([])
  }

  /** Form r of the chain is one that may be sent, and fits. */
  predicate FormFits(fields: seq<Field>, r: nat, allowEmpty: bool, marshal: Marshal, left: int)
    requires r <= 2 * |fields|
  {
    && (allowEmpty || Lossier(fields, r) != [])
    && marshal(Lossier(fields, r)).Some? && |marshal(Lossier(fields, r)).value| <= left
  }

  /** The content is the first form of the chain that fits; nothing, only if none does. */
  predicate FirstForm(fields: seq<Field>, allowEmpty: bool, marshal: Marshal, left: int, content: Bytes) {
    || (content == [] && forall r :: 0 <= r <= 2 * |fields| ==> !FormFits(fields, r, allowEmpty, marshal, left))
    || exists r :: 0 <= r <= 2 * |fields| && FormFits(fields, r, allowEmpty, marshal, left)
                   && marshal(Lossier(fields, r)) == Some(content)
                   && forall q :: 0 <= q < r ==> !FormFits(fields, q, allowEmpty, marshal, left)
  }

  /** What an allowed field sends when `left` bytes of the share are left: all of it, or as much as fits. */
  predicate FieldSends(doc: Document, k: nat, left: int, content: Bytes)
    requires k < 4
  {
    && Whole(doc, k).Some?
    && if Whole(doc, k).value == [] || left <= 0 then content == []
       else if |Whole(doc, k).value| <= left then content == Whole(doc, k).value
       else if k < 2 then content == []
       else if k == 2 then FirstForm(doc.query, false, doc.encodeQuery, left, content)
       else FirstForm(doc.body, true, doc.encodeBody, left, content)
  }

  function Total(cs: seq<Bytes>): nat {
    if cs == [] then 0 else Total(cs[..|cs| - 1]) + |cs[|cs| - 1]|
  }

  /** One fragment for each of the contents that is not empty, in order. */
  function FragmentsOf(handle: string, cs: seq<Bytes>): seq<Fragment>
    requires |cs| <= 4
  {
    if cs == [] then []
    else
      var n := |cs| - 1;
      FragmentsOf(handle, cs[..n]) + if cs[n] == [] then [] else [Fragment(handle, ORDER[n], cs[n])]
  }

  /** The contents of the first fields: of an allowed field what it sends within what is left, of another nothing. */
  predicate Contents(cs: seq<Bytes>, doc: Document, allowed: seq<string>, share: int) {
    |cs| <= 4 && forall k :: 0 <= k < |cs| ==>
      if ORDER[k] in allowed then FieldSends(doc, k, share - Total(cs[..k]), cs[k]) else cs[k] == []
  }

  /** The block of a handle holds what its document's fields send, in order and one fragment each. */
  ghost predicate SendsFields(block: seq<Fragment>, handle: string, allowed: seq<string>, doc: Document, share: int) {
    exists cs: seq<Bytes> :: |cs| == 4 && Contents(cs, doc, allowed, share) && block == FragmentsOf(handle, cs)
  }

  /** If everything allowed fits the share, everything allowed is sent, whole. */
  lemma {:induction false} SendsAllThatFits(cs: seq<Bytes>, texts: seq<Bytes>, doc: Document, allowed: seq<string>, share: int)
    requires |cs| == |texts| == 4 && Contents(cs, doc, allowed, share) && Total(texts) <= share
    requires forall k :: 0 <= k < 4 ==>
               if ORDER[k] in allowed then Whole(doc, k) == Some(texts[k]) else texts[k] == []
    ensures cs == texts
  {
    AllSent(cs, texts, doc, allowed, share, 4);
    assert cs[..4] == cs && texts[..4] == texts;
  }

  lemma {:induction false} AllSent(cs: seq<Bytes>, texts: seq<Bytes>, doc: Document, allowed: seq<string>, share: int, n: nat)
    requires |cs| == |texts| == 4 && Contents(cs, doc, allowed, share) && Total(texts) <= share && n <= 4
    requires forall k :: 0 <= k < 4 ==>
               if ORDER[k] in allowed then Whole(doc, k) == Some(texts[k]) else texts[k] == []
    ensures cs[..n] == texts[..n]
  {
    if n > 0 {
      AllSent(cs, texts, doc, allowed, share, n - 1);
      TotalPrefix(texts, n);
      assert texts[..n][..n - 1] == texts[..n - 1];
      assert cs[n - 1] == texts[n - 1];
      assert cs[..n] == cs[..n - 1] + [cs[n - 1]] && texts[..n] == texts[..n - 1] + [texts[n - 1]];
    }
  }

  lemma {:induction false} TotalPrefix(cs: seq<Bytes>, n: nat)
    requires n <= |cs|
    ensures Total(cs[..n]) <= Total(cs)
  {
    if n < |cs| {
      assert cs[..|cs| - 1][..n] == cs[..n];
      TotalPrefix(cs[..|cs| - 1], n);
    } else {
      assert cs[..n] == cs;
    }
  }

  /** The part of field k, if the document has one. */
  function SlotPart(doc: Document, k: nat): Option<Part>
    requires k < 4 && Whole(doc, k).Some?
  {
    if k == 0 then Some(Plain("method", doc.verb))
    else if k == 1 then Some(Plain("path", doc.route))
    else if k == 2 then
      if doc.query == [] then None
      else Some(Structured("query", Whole(doc, 2).value, doc.query, false, doc.encodeQuery))
    else if doc.hasBody then Some(Structured("body", Whole(doc, 3).value, doc.body, true, doc.encodeBody))
    else None
  }

  /** The next content, if it is what the next field sends. */
  predicate NextContent(cs: seq<Bytes>, c: Bytes, doc: Document, allowed: seq<string>, share: int)
    requires |cs| < 4
  {
    if ORDER[|cs|] in allowed then FieldSends(doc, |cs|, share - Total(cs), c) else c == []
  }

  lemma ContentsGrow(cs: seq<Bytes>, c: Bytes, doc: Document, allowed: seq<string>, share: int)
    requires |cs| < 4 && Contents(cs, doc, allowed, share) && NextContent(cs, c, doc, allowed, share)
    ensures Contents(cs + [c], doc, allowed, share)
  {
    var all := cs + [c];
    assert all[..|cs|] == cs && all[|cs|] == c;
    forall k | 0 <= k < |cs|
      ensures all[..k] == cs[..k] && all[k] == cs[k]
    {
    }
  }

  lemma FragmentsGrow(handle: string, cs: seq<Bytes>, c: Bytes)
    requires |cs| < 4
    ensures FragmentsOf(handle, cs + [c]) == FragmentsOf(handle, cs) + if c == [] then [] else [Fragment(handle, ORDER[|cs|], c)]
  {
    assert (cs + [c])[..|cs|] == cs;
  }

  lemma {:induction false} VolumeIsTotal(handle: string, cs: seq<Bytes>)
    requires |cs| <= 4
    ensures Volume(FragmentsOf(handle, cs)) == Total(cs)
  {
    if cs != [] {
      var n := |cs| - 1;
      var before := FragmentsOf(handle, cs[..n]);
      VolumeIsTotal(handle, cs[..n]);
      VolumeOne(before, Fragment(handle, ORDER[n], cs[n]));
      assert before + [] == before;
    }
  }

  function SlotAdded(handle: string, before: seq<Fragment>, doc: Document, k: nat, allowed: seq<string>, share: int): Option<seq<Fragment>>
    requires k < 4 && Whole(doc, k).Some?
  {
    var part := SlotPart(doc, k);
    if part.None? then Some(before) else Added(handle, before, part.value, allowed, share)
  }

  lemma SlotName(doc: Document, k: nat)
    requires k < 4 && Whole(doc, k).Some?
    ensures SlotPart(doc, k).None? ==> Whole(doc, k).value == []
    ensures SlotPart(doc, k).Some? ==>
              SlotPart(doc, k).value.name == ORDER[k] && SlotPart(doc, k).value.content == Whole(doc, k).value
  {
  }

  lemma SlotContent(handle: string, before: seq<Fragment>, doc: Document, k: nat, allowed: seq<string>, share: int)
    returns (c: Bytes)
    requires k < 4 && Whole(doc, k).Some? && SlotAdded(handle, before, doc, k, allowed, share).Some?
    ensures if ORDER[k] in allowed then FieldSends(doc, k, share - Volume(before), c) else c == []
    ensures SlotAdded(handle, before, doc, k, allowed, share)
            == Some(before + if c == [] then [] else [Fragment(handle, ORDER[k], c)])
  {
    var part, left := SlotPart(doc, k), share - Volume(before);
    SlotName(doc, k);
    assert before + [] == before;
    if part.None? || ORDER[k] !in allowed || Whole(doc, k).value == [] || left <= 0 {
      c := [];
    } else {
      c := Chosen(part.value, left).value;
      ChosenSends(doc, k, left);
    }
  }

  /** What one field adds to the fragments before it. */
  lemma {:induction false} SlotAdds(handle: string, cs: seq<Bytes>, doc: Document, allowed: seq<string>, share: int) returns (c: Bytes)
    requires |cs| < 4 && Whole(doc, |cs|).Some?
    requires SlotAdded(handle, FragmentsOf(handle, cs), doc, |cs|, allowed, share).Some?
    ensures NextContent(cs, c, doc, allowed, share)
    ensures SlotAdded(handle, FragmentsOf(handle, cs), doc, |cs|, allowed, share) == Some(FragmentsOf(handle, cs + [c]))
  {
    var before := FragmentsOf(handle, cs);
    VolumeIsTotal(handle, cs);
    c := SlotContent(handle, before, doc, |cs|, allowed, share);
    FragmentsGrow(handle, cs, c);
  }

  lemma ChosenSends(doc: Document, k: nat, left: int)
    requires k < 4 && Whole(doc, k).Some? && SlotPart(doc, k).Some? && Whole(doc, k).value != [] && left > 0
    requires Chosen(SlotPart(doc, k).value, left).Some?
    ensures FieldSends(doc, k, left, Chosen(SlotPart(doc, k).value, left).value)
  {
    if k == 2 {
      FirstIsFirst(doc.query, 0, left, false, doc.encodeQuery);
    } else if k == 3 {
      FirstIsFirst(doc.body, 0, left, true, doc.encodeBody);
    }
  }

  lemma {:induction false} FirstIsFirst(fields: seq<Field>, q: nat, left: int, allowEmpty: bool, marshal: Marshal)
    requires q <= 2 * |fields| + 1
    requires forall p :: 0 <= p < q ==> !FormFits(fields, p, allowEmpty, marshal, left)
    ensures match First(fields, q, left, allowEmpty, marshal)
            case Fits(c) => FirstForm(fields, allowEmpty, marshal, left, c)
            case Nothing => FirstForm(fields, allowEmpty, marshal, left, [])
            case EncodingError => true
    decreases 2 * |fields| + 1 - q
  {
    if q <= 2 * |fields| && !Stops(Lossier(fields, q), left, allowEmpty, marshal) {
      FirstIsFirst(fields, q + 1, left, allowEmpty, marshal);
    }
  }

  /** The four fields one after the other. */
  function SlotsAdded(handle: string, doc: Document, allowed: seq<string>, share: int, n: nat): Option<seq<Fragment>>
    requires n <= 4 && forall k :: 0 <= k < 4 ==> Whole(doc, k).Some?
  {
    if n == 0 then Some([])
    else
      match SlotsAdded(handle, doc, allowed, share, n - 1)
      case None => None
      case Some(before) => SlotAdded(handle, before, doc, n - 1, allowed, share)
  }

  lemma {:induction false} SlotsSend(handle: string, doc: Document, allowed: seq<string>, share: int, n: nat)
    returns (cs: seq<Bytes>)
    requires n <= 4 && (forall k :: 0 <= k < 4 ==> Whole(doc, k).Some?) && SlotsAdded(handle, doc, allowed, share, n).Some?
    ensures |cs| == n && Contents(cs, doc, allowed, share)
    ensures SlotsAdded(handle, doc, allowed, share, n) == Some(FragmentsOf(handle, cs))
  {
    if n == 0 {
      cs := [];
    } else {
      cs := SlotsSend(handle, doc, allowed, share, n - 1);
      var c := SlotAdds(handle, cs, doc, allowed, share);
      ContentsGrow(cs, c, doc, allowed, share);
      cs := cs + [c];
    }
  }

  /** The parts of a document are its fields, those it has not left out. */
  lemma PartsAreSlots(handle: string, doc: Document, allowed: seq<string>, share: int)
    requires PartsFor(doc).Some?
    ensures forall k :: 0 <= k < 4 ==> Whole(doc, k).Some?
    ensures var parts := PartsFor(doc).value;
            Collected(handle, parts, allowed, share, |parts|) == SlotsAdded(handle, doc, allowed, share, 4)
  {
    var parts := PartsFor(doc).value;
    assert Collected(handle, parts, allowed, share, 0) == SlotsAdded(handle, doc, allowed, share, 0);
    assert Collected(handle, parts, allowed, share, 1) == SlotsAdded(handle, doc, allowed, share, 1);
    assert Collected(handle, parts, allowed, share, 2) == SlotsAdded(handle, doc, allowed, share, 2);
    var q := if doc.query == [] then 2 else 3;
    assert Collected(handle, parts, allowed, share, q) == SlotsAdded(handle, doc, allowed, share, 3);
    assert |parts| == if doc.hasBody then q + 1 else q;
  }

  /** A block that is exactly what its document's parts give holds what its fields send. */
  lemma ExactSendsFields(block: seq<Fragment>, handle: string, allowed: seq<string>, vault: map<string, Document>, share: int)
    requires ExactBlock(block, handle, allowed, vault, share)
    ensures SendsFields(block, handle, allowed, vault[handle], share)
  {
    PartsAreSlots(handle, vault[handle], allowed, share);
    var cs := SlotsSend(handle, vault[handle], allowed, share, 4);
  }

  /** Every block of an answer holds what the fields of its handle's document send within its share. */
  ghost predicate SendsDocuments(
    blocks: seq<seq<Fragment>>, shares: seq<int>, request: Request, vault: map<string, Document>)
  {
    && |blocks| == |shares| == |request.handles|
    && forall k :: 0 <= k < |blocks| ==>
         && request.handles[k] in vault && vault[request.handles[k]].valid
         && vault[request.handles[k]].verb != [] && vault[request.handles[k]].route != []
         && SendsFields(blocks[k], request.handles[k], request.allowed, vault[request.handles[k]], shares[k])
  }

  lemma AnswersSendDocuments(
    fragments: seq<Fragment>, blocks: seq<seq<Fragment>>, shares: seq<int>, request: Request, vault: map<string, Document>)
    requires request.handles != [] && Answers(fragments, blocks, shares, request, vault)
    ensures SendsDocuments(blocks, shares, request, vault)
  {
    forall k | 0 <= k < |blocks|
      ensures request.handles[k] in vault && vault[request.handles[k]].valid
      ensures vault[request.handles[k]].verb != [] && vault[request.handles[k]].route != []
      ensures SendsFields(blocks[k], request.handles[k], request.allowed, vault[request.handles[k]], shares[k])
    {
      ExactAt(blocks, shares, request, vault, k);
      ExactSendsFields(blocks[k], request.handles[k], request.allowed, vault, shares[k]);
    }
  }
}
