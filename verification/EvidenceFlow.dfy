/**
 * An approval from end to end: the server splits it into one request per unit (lib/brain/approval_service.go) and every
 * unit's edge answers its own (cmd/yufeng-edge/traffic_review_runtime.go).
 */
module EvidenceFlow {
  import opened Text
  import opened EvidenceSplit
  import opened EvidenceBundle

  /** What comes back for an approval. */
  datatype Flow = Sent(bundles: seq<seq<Fragment>>) | NotSplit(why: EvidenceSplit.Outcome) | UnitRefused

  /** What the edge is asked. */
  function EdgeRequest(u: UnitRequest, allowed: seq<string>): Request {
    Request(u.handles, allowed, u.maxBytes)
  }

  /** The documents a unit holds. */
  function VaultOf(vaults: map<string, map<string, Document>>, unit: string): map<string, Document> {
    if unit in vaults then vaults[unit] else map[]
  }

  /** A unit's answer, with its blocks and shares as witnesses. */
  datatype Answer = Answer(fragments: seq<Fragment>, blocks: seq<seq<Fragment>>, shares: seq<int>)

  predicate Answered(a: Answer, u: UnitRequest, allowed: seq<string>, vaults: map<string, map<string, Document>>) {
    && u.handles != []
    && Answers(a.fragments, a.blocks, a.shares, EdgeRequest(u, allowed), VaultOf(vaults, u.unit))
  }

  function Bundles(answers: seq<Answer>): (bs: seq<seq<Fragment>>)
    ensures |bs| == |answers|
    ensures forall k :: 0 <= k < |bs| ==> bs[k] == answers[k].fragments
  {
    seq(|answers|, k requires 0 <= k < |answers| => answers[k].fragments)
  }

  // ---- the edge's own budget test ----------------------------------------------------------------

  /**
   * A split request passes the edge's test that its budget, capped at the model's, has a byte for every handle, exactly
   * when the unit holds no more handles than the cap has bytes.
   */
  lemma EdgeBudgetTest(maxBytes: nat, held: nat, all: nat)
    requires 0 < held <= all <= maxBytes
    ensures held <= BudgetFor(Share(maxBytes, held, all)) <==> held <= MODEL_EVIDENCE_BYTES
  {
    ShareCovers(maxBytes, held, all);
  }

  /** The bytes of an approval, and the most handles it has: three suspicious and two baseline representatives. */
  const CASE_BYTES := 40960
  const MAX_REPRESENTATIVES := 5

  /**
   * For the approvals the server makes neither the split nor the edge refuses for lack of bytes, and every handle is
   * left a share of at least 6144.
   */
  lemma CaseBudgetSuffices(held: nat, all: nat)
    requires 0 < held <= all <= MAX_REPRESENTATIVES
    ensures all <= CASE_BYTES && held <= BudgetFor(Share(CASE_BYTES, held, all))
    ensures EqualShare(BudgetFor(Share(CASE_BYTES, held, all)), held) >= 6144
  {
    EdgeBudgetTest(CASE_BYTES, held, all);
    var budget := BudgetFor(Share(CASE_BYTES, held, all));
    assert budget >= 6144 * held by {
      assert CASE_BYTES * held >= 6144 * held * all;
      ShareAtLeast(CASE_BYTES * held, all, 6144 * held);
    }
    ShareAtLeast(budget, held, 6144);
  }

  lemma ShareAtLeast(x: nat, n: nat, y: nat)
    requires n > 0 && x >= y * n
    ensures x / n >= y
  {
    var q := x / n;
    assert x == q * n + x % n;
    assert (q + 1) * n > y * n;
  }

  // ---- handles of a request are distinct -----------------------------------------------------------

  lemma {:induction false} OnceEach(s: seq<string>, x: string)
    requires forall k, l :: 0 <= k < l < |s| ==> s[k] != s[l]
    ensures multiset(s)[x] <= 1
  {
    if s != [] {
      var n := |s| - 1;
      OnceEach(s[..n], x);
      assert s == s[..n] + [s[n]];
      assert s[n] !in s[..n];
    }
  }

  lemma DistinctFromCounts(s: seq<string>)
    requires forall x :: multiset(s)[x] <= 1
    ensures Distinct(s)
  {
    forall k, l | 0 <= k < l < |s|
      ensures s[k] != s[l]
    {
      assert s == s[..l] + [s[l]] + s[l + 1..];
      assert multiset(s) == multiset(s[..l]) + multiset{s[l]} + multiset(s[l + 1..]);
      assert s[..l][k] == s[k] && s[k] in multiset(s[..l]);
      assert multiset(s)[s[l]] <= 1;
    }
  }

  lemma {:induction false} PartIsIncluded(requests: seq<UnitRequest>, k: nat, x: string)
    requires k < |requests|
    ensures multiset(requests[k].handles)[x] <= Parts(requests)[x]
  {
    if k < |requests| - 1 {
      PartIsIncluded(requests[..|requests| - 1], k, x);
    }
  }

  lemma RequestsAreDistinct(requests: seq<UnitRequest>, rows: seq<Candidate>, k: nat)
    requires k < |requests| && Unambiguous(rows) && Parts(requests) == multiset(Handles(rows))
    ensures Distinct(requests[k].handles)
  {
    forall x
      ensures multiset(requests[k].handles)[x] <= 1
    {
      PartIsIncluded(requests, k, x);
      OnceEach(Handles(rows), x);
    }
    DistinctFromCounts(requests[k].handles);
  }

  // ---- where a handle and its fragments are ----------------------------------------------------------

  lemma {:induction false} HolderOf(requests: seq<UnitRequest>, h: string) returns (k: nat)
    requires h in Parts(requests)
    ensures k < |requests| && h in requests[k].handles
  {
    var n := |requests| - 1;
    if h in requests[n].handles {
      k := n;
    } else {
      k := HolderOf(requests[..n], h);
    }
  }

  lemma {:induction false} InFlat(blocks: seq<seq<Fragment>>, k: nat, f: Fragment)
    requires k < |blocks| && f in blocks[k]
    ensures f in Flat(blocks)
  {
    if k < |blocks| - 1 {
      InFlat(blocks[..|blocks| - 1], k, f);
    }
  }

  lemma {:induction false} FromFlat(blocks: seq<seq<Fragment>>, f: Fragment) returns (k: nat)
    requires f in Flat(blocks)
    ensures k < |blocks| && f in blocks[k]
  {
    var n := |blocks| - 1;
    if f in blocks[n] {
      k := n;
    } else {
      k := FromFlat(blocks[..n], f);
    }
  }

  predicate HasFragment(fragments: seq<Fragment>, h: string) {
    exists j :: 0 <= j < |fragments| && fragments[j].handle == h
  }

  /** A unit's answer has a fragment for each of its handles, of allowed fields only. */
  lemma UnitCovers(a: Answer, u: UnitRequest, allowed: seq<string>, vaults: map<string, map<string, Document>>, h: string)
    requires Answered(a, u, allowed, vaults) && h in u.handles
    ensures HasFragment(a.fragments, h)
  {
    var k :| 0 <= k < |u.handles| && u.handles[k] == h;
    assert BlockOk(a.blocks[k], h, allowed, a.shares[k]);
    var f := a.blocks[k][0];
    InFlat(a.blocks, k, f);
  }

  lemma UnitAllows(a: Answer, u: UnitRequest, allowed: seq<string>, vaults: map<string, map<string, Document>>, f: Fragment)
    requires Answered(a, u, allowed, vaults) && f in a.fragments
    ensures f.field in allowed && f.handle in u.handles && f.content != []
  {
    var k := FromFlat(a.blocks, f);
    assert BlockOk(a.blocks[k], u.handles[k], allowed, a.shares[k]);
  }

  /** All answers to a split approval. */
  ghost predicate AllAnswered(
    answers: seq<Answer>, requests: seq<UnitRequest>, allowed: seq<string>, vaults: map<string, map<string, Document>>)
  {
    && |answers| == |requests|
    && forall k :: 0 <= k < |answers| ==> Answered(answers[k], requests[k], allowed, vaults)
  }

  /** All fragments together: within the approved bytes, one for every approved handle, allowed fields only. */
  predicate Complete(fragments: seq<Fragment>, handles: seq<string>, allowed: seq<string>, maxBytes: int) {
    && Volume(fragments) <= maxBytes
    && (forall k :: 0 <= k < |handles| ==> HasFragment(fragments, handles[k]))
    && (forall j :: 0 <= j < |fragments| ==>
          fragments[j].field in allowed && fragments[j].handle in handles && fragments[j].content != [])
  }

  lemma {:induction false} VolumesFit(bundles: seq<seq<Fragment>>, requests: seq<UnitRequest>)
    requires |bundles| == |requests|
    requires forall k :: 0 <= k < |bundles| ==> Volume(bundles[k]) <= requests[k].maxBytes
    ensures Volume(Flat(bundles)) <= Budget(requests)
  {
    if bundles != [] {
      var n := |bundles| - 1;
      VolumesFit(bundles[..n], requests[..n]);
      BytesAdd(Flat(bundles[..n]), bundles[n]);
    }
  }

  lemma EndToEnd(
    answers: seq<Answer>, requests: seq<UnitRequest>, handles: seq<string>, allowed: seq<string>,
    vaults: map<string, map<string, Document>>, maxBytes: nat)
    requires AllAnswered(answers, requests, allowed, vaults)
    requires Parts(requests) == multiset(handles) && Budget(requests) <= maxBytes
    ensures Complete(Flat(Bundles(answers)), handles, allowed, maxBytes)
  {
    var bundles := Bundles(answers);
    forall k | 0 <= k < |bundles|
      ensures Volume(bundles[k]) <= requests[k].maxBytes
    {
      assert Answered(answers[k], requests[k], allowed, vaults);
    }
    VolumesFit(bundles, requests);
    forall i | 0 <= i < |handles|
      ensures HasFragment(Flat(bundles), handles[i])
    {
      assert handles[i] in multiset(handles);
      var k := HolderOf(requests, handles[i]);
      UnitCovers(answers[k], requests[k], allowed, vaults, handles[i]);
      var j :| 0 <= j < |answers[k].fragments| && answers[k].fragments[j].handle == handles[i];
      InFlat(bundles, k, answers[k].fragments[j]);
    }
    forall j | 0 <= j < |Flat(bundles)|
      ensures var f := Flat(bundles)[j]; f.field in allowed && f.handle in handles && f.content != []
    {
      var f := Flat(bundles)[j];
      var k := FromFlat(bundles, f);
      UnitAllows(answers[k], requests[k], allowed, vaults, f);
      PartIsIncluded(requests, k, f.handle);
      assert f.handle in multiset(requests[k].handles);
      assert f.handle in multiset(handles);
    }
  }

  /**
   * Nothing stands in the way of an approval: its handles and fields are well formed, no unit holds more handles than
   * the model's cap has bytes, and every document can be sent within an equal split.
   */
  ghost predicate Answerable(
    requests: seq<UnitRequest>, handles: seq<string>, allowed: seq<string>, vaults: map<string, map<string, Document>>)
  {
    && (forall k :: 0 <= k < |handles| ==> !Blank(handles[k]))
    && (forall k :: 0 <= k < |allowed| ==> allowed[k] in FIELDS) && Distinct(allowed)
    && forall k :: 0 <= k < |requests| ==>
         && 0 < |requests[k].handles| <= MODEL_EVIDENCE_BYTES
         && AllSendable(EdgeRequest(requests[k], allowed), VaultOf(vaults, requests[k].unit),
                        EqualShare(BudgetFor(requests[k].maxBytes), |requests[k].handles|))
  }

  /** The edge answers this request. */
  ghost predicate EdgeAnswers(u: UnitRequest, allowed: seq<string>, vaults: map<string, map<string, Document>>) {
    && WellFormed(EdgeRequest(u, allowed)) && 0 < |u.handles| <= BudgetFor(u.maxBytes)
    && AllSendable(EdgeRequest(u, allowed), VaultOf(vaults, u.unit), EqualShare(BudgetFor(u.maxBytes), |u.handles|))
  }

  /** A request split from an answerable approval passes every test at the edge. */
  lemma PassesEdge(
    requests: seq<UnitRequest>, rows: seq<Candidate>, handles: seq<string>, allowed: seq<string>,
    vaults: map<string, map<string, Document>>, maxBytes: nat, k: nat)
    requires k < |requests| && Answerable(requests, handles, allowed, vaults)
    requires Unambiguous(rows) && Parts(requests) == multiset(handles) == multiset(Handles(rows))
    requires 0 < |handles| <= maxBytes && |requests[k].handles| <= |handles|
    requires requests[k].maxBytes == Share(maxBytes, |requests[k].handles|, |handles|)
    ensures EdgeAnswers(requests[k], allowed, vaults)
  {
    RequestsAreDistinct(requests, rows, k);
    EdgeBudgetTest(maxBytes, |requests[k].handles|, |handles|);
    forall j | 0 <= j < |requests[k].handles|
      ensures !Blank(requests[k].handles[j])
    {
      PartIsIncluded(requests, k, requests[k].handles[j]);
      assert requests[k].handles[j] in multiset(requests[k].handles);
      assert requests[k].handles[j] in multiset(handles);
    }
  }

  lemma {:induction false} PartIsSmaller(requests: seq<UnitRequest>, k: nat)
    requires k < |requests|
    ensures |requests[k].handles| <= |Parts(requests)|
  {
    if k < |requests| - 1 {
      PartIsSmaller(requests[..|requests| - 1], k);
    }
  }

  method AnswerUnit(u: UnitRequest, allowed: seq<string>, vaults: map<string, map<string, Document>>)
    returns (bundle: Option<seq<Fragment>>, ghost answer: Answer)
    ensures bundle.Some? ==>
              && answer.fragments == bundle.value && Answered(answer, u, allowed, vaults)
              && |u.handles| <= MODEL_EVIDENCE_BYTES
    ensures EdgeAnswers(u, allowed, vaults) ==> bundle.Some?
  {
    var built;
    ghost var blocks, shares;
    built, blocks, shares := BuildEvidenceBundle(EdgeRequest(u, allowed), VaultOf(vaults, u.unit));
    bundle := if built.Rejected? then None else Some(built.fragments);
    answer := Answer(if bundle.None? then [] else bundle.value, blocks, shares);
  }

  /** Every unit answers its own request. */
  method AnswerUnits(requests: seq<UnitRequest>, allowed: seq<string>, vaults: map<string, map<string, Document>>)
    returns (bundles: Option<seq<seq<Fragment>>>, ghost answers: seq<Answer>)
    ensures bundles.Some? ==> bundles.value == Bundles(answers) && AllAnswered(answers, requests, allowed, vaults)
    ensures bundles.Some? ==> forall k :: 0 <= k < |requests| ==> |requests[k].handles| <= MODEL_EVIDENCE_BYTES
    ensures (forall k :: 0 <= k < |requests| ==> EdgeAnswers(requests[k], allowed, vaults)) ==> bundles.Some?
  {
    answers := [];
    var list: seq<seq<Fragment>> := [];
    for i := 0 to |requests|
      invariant |answers| == i && list == Bundles(answers)
      invariant AllAnswered(answers, requests[..i], allowed, vaults)
      invariant forall k :: 0 <= k < i ==> |requests[k].handles| <= MODEL_EVIDENCE_BYTES
    {
      var bundle;
      ghost var answer;
      bundle, answer := AnswerUnit(requests[i], allowed, vaults);
      if bundle.None? {
        return None, [];
      }
      list := list + [bundle.value];
      answers := answers + [answer];
      assert list == Bundles(answers);
    }
    assert requests[..|requests|] == requests;
    bundles := Some(list);
  }

  /**
   * Decide an approval and let every unit answer. What is sent in all is within the approved bytes, has a fragment for
   * every approved handle and holds only allowed fields, and every handle's share is at least the equal split of its
   * unit's budget and at least one byte.
   */
  method AnswerApproval(
    handles: seq<string>, rows: seq<Candidate>, maxBytes: nat, allowed: seq<string>,
    vaults: map<string, map<string, Document>>)
    returns (r: Flow, ghost requests: seq<UnitRequest>, ghost answers: seq<Answer>)
    requires forall k :: 0 <= k < |rows| ==> rows[k].handle in handles
    ensures r.NotSplit? <==> !(handles != [] && Unambiguous(rows) && |rows| == |handles| && maxBytes >= |handles|)
    ensures r.Sent? ==>
              && r.bundles == Bundles(answers) && AllAnswered(answers, requests, allowed, vaults)
              && Complete(Flat(r.bundles), handles, allowed, maxBytes)
    ensures !r.NotSplit? ==>
              && Parts(requests) == multiset(handles)
              && forall k :: 0 <= k < |requests| ==>
                   requests[k].maxBytes == Share(maxBytes, |requests[k].handles|, |handles|)
    ensures r.Sent? ==> forall k :: 0 <= k < |requests| ==> |requests[k].handles| <= MODEL_EVIDENCE_BYTES
    ensures !r.NotSplit? && Answerable(requests, handles, allowed, vaults) ==> r.Sent?
  {
    requests, answers := [], [];
    var split := DecideEvidence(handles, rows, maxBytes);
    if !split.Split? {
      return NotSplit(split), [], [];
    }
    requests := split.requests;
    if Answerable(requests, handles, allowed, vaults) {
      forall k | 0 <= k < |requests|
        ensures EdgeAnswers(requests[k], allowed, vaults)
      {
        PartIsSmaller(requests, k);
        PassesEdge(requests, rows, handles, allowed, vaults, maxBytes, k);
      }
    }
    var bundles;
    bundles, answers := AnswerUnits(split.requests, allowed, vaults);
    if bundles.None? {
      return UnitRefused, requests, [];
    }
    EndToEnd(answers, requests, handles, allowed, vaults, maxBytes);
    r := Sent(bundles.value);
  }
}
