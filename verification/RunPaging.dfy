/**
 * Listing runs (lib/brain/agent_run.go): rows are read in batches, runs outside the caller's scope are skipped, and
 * the page token is the row offset of the first visible run that did not fit.
 */
module RunPaging {
  import opened Text

  /** The objects a caller may see. */
  datatype Scope = Scope(assets: set<string>, units: set<string>, releases: set<string>)

  datatype Run = Run(id: string, state: string, bindings: seq<string>)

  datatype Binding = Binding(id: string, kind: string)

  const PAGE_SIZE_DEFAULT := 50
  const PAGE_SIZE_MAX := 200
  const MAX_INT := 0x7fff_ffff_ffff_ffff

  // ---- who sees a run ----------------------------------------------------------------------------

  function After(b: string, p: string): string
    requires p <= b
  {
    b[|p|..]
  }

  function ParseBinding(b: string): Binding {
    if "asset:" <= b then Binding(After(b, "asset:"), "asset")
    else if "unit:" <= b then Binding(After(b, "unit:"), "unit")
    else if "release:" <= b then Binding(After(b, "release:"), "release")
    else if "cluster:" <= b then Binding(After(b, "cluster:"), "cluster")
    else if "event:" <= b then Binding(After(b, "event:"), "event")
    else if "case:" <= b then Binding(After(b, "case:"), "case")
    else Binding(b, "asset")
  }

  const KINDS := ["asset", "unit", "release", "cluster", "event", "case"]

  /** A binding says its kind before the colon; without one it names an asset. */
  lemma BindingKinds(id: string, k: nat)
    requires k < |KINDS|
    ensures ParseBinding(KINDS[k] + ":" + id) == Binding(id, KINDS[k])
    ensures (forall j :: 0 <= j < |KINDS| ==> !(KINDS[j] + ":" <= id)) ==> ParseBinding(id) == Binding(id, "asset")
  {
    assert KINDS[0] + ":" == "asset:" && KINDS[1] + ":" == "unit:" && KINDS[2] + ":" == "release:";
    assert KINDS[3] + ":" == "cluster:" && KINDS[4] + ":" == "event:" && KINDS[5] + ":" == "case:";
    var b := KINDS[k] + ":" + id;
    assert b[|KINDS[k]| + 1..] == id;
    assert b[0] == KINDS[k][0] && b[1] == KINDS[k][1];
  }

  /** Clusters and events only select; they do not decide who may see the run. */
  predicate Decides(b: Binding) {
    b.kind != "cluster" && b.kind != "event"
  }

  predicate Covered(scope: Scope, b: Binding) {
    && !Blank(b.id)
    && (Decides(b) ==>
          if b.kind == "unit" then b.id in scope.units
          else if b.kind == "release" then b.id in scope.releases
          else b.id in scope.assets)
  }

  function Parsed(bindings: seq<string>): (bs: seq<Binding>)
    ensures |bs| == |bindings|
  {
    if bindings == [] then []
    else Parsed(bindings[..|bindings| - 1]) + [ParseBinding(bindings[|bindings| - 1])]
  }

  lemma {:induction false} ParsedAt(bindings: seq<string>, k: nat)
    requires k < |bindings|
    ensures Parsed(bindings)[k] == ParseBinding(bindings[k])
  {
    var n := |bindings| - 1;
    if k < n {
      ParsedAt(bindings[..n], k);
    }
  }

  /** Every binding is covered, and at least one decides. */
  predicate AllCovered(scope: Scope, bs: seq<Binding>) {
    && (forall k :: 0 <= k < |bs| ==> Covered(scope, bs[k]))
    && exists k :: 0 <= k < |bs| && Decides(bs[k])
  }

  predicate Covers(scope: Scope, bindings: seq<string>) {
    AllCovered(scope, Parsed(bindings))
  }

  lemma KindNames(k: nat)
    requires k < |KINDS|
    ensures (KINDS[k] == "unit" <==> k == 1) && (KINDS[k] == "release" <==> k == 2)
    ensures (KINDS[k] == "cluster" <==> k == 3) && (KINDS[k] == "event" <==> k == 4)
  {
    assert |KINDS[0]| == 5 && |KINDS[1]| == 4 && |KINDS[2]| == 7 && |KINDS[3]| == 7 && |KINDS[4]| == 5 && |KINDS[5]| == 4;
    assert KINDS[0][0] == 'a' && KINDS[1][0] == 'u' && KINDS[2][0] == 'r' && KINDS[3][0] == 'c' && KINDS[4][0] == 'e';
    assert KINDS[5][0] == 'c';
  }

  /** The caller may see the object a binding of this kind names. */
  predicate InScope(scope: Scope, id: string, kind: nat) {
    if kind == 1 then id in scope.units
    else if kind == 2 then id in scope.releases
    else kind == 3 || kind == 4 || id in scope.assets
  }

  lemma InScopeExactly(scope: Scope, id: string, kind: nat)
    requires kind < |KINDS|
    ensures var b := ParseBinding(KINDS[kind] + ":" + id);
            && (Covered(scope, b) <==> !Blank(id) && InScope(scope, id, kind))
            && (Decides(b) <==> kind != 3 && kind != 4)
  {
    BindingKinds(id, kind);
    KindNames(kind);
  }

  /**
   * A run is seen exactly if no binding is blank, the caller sees every asset, case, unit and release it is bound to, and
   * it is bound to one of those.
   */
  lemma SeenExactly(scope: Scope, ids: seq<string>, kinds: seq<nat>, bindings: seq<string>)
    requires |ids| == |kinds| == |bindings|
    requires forall k :: 0 <= k < |ids| ==> kinds[k] < |KINDS| && bindings[k] == KINDS[kinds[k]] + ":" + ids[k]
    ensures Covers(scope, bindings) <==>
            && (forall k :: 0 <= k < |ids| ==> !Blank(ids[k]) && InScope(scope, ids[k], kinds[k]))
            && exists k :: 0 <= k < |ids| && kinds[k] != 3 && kinds[k] != 4
  {
    var bs := Parsed(bindings);
    forall k | 0 <= k < |ids|
      ensures Covered(scope, bs[k]) <==> !Blank(ids[k]) && InScope(scope, ids[k], kinds[k])
      ensures Decides(bs[k]) <==> kinds[k] != 3 && kinds[k] != 4
    {
      ParsedAt(bindings, k);
      InScopeExactly(scope, ids[k], kinds[k]);
    }
  }

  /** One turn of the loop over the bindings. */
  method CoversBinding(scope: Scope, b: Binding) returns (ok: bool, decides: bool)
    ensures ok <==> Covered(scope, b)
    ensures ok ==> decides == Decides(b)
  {
    if Blank(b.id) {
      return false, false;
    }
    if b.kind == "unit" {
      return b.id in scope.units, true;
    }
    if b.kind == "release" {
      return b.id in scope.releases, true;
    }
    if b.kind == "cluster" || b.kind == "event" {
      return true, false;
    }
    return b.id != "" && b.id in scope.assets, true;
  }

  /** The first k bindings are covered, and `deciding` of them decide. */
  predicate CoveredSoFar(scope: Scope, bs: seq<Binding>, k: nat, deciding: int)
    requires k <= |bs|
  {
    && (forall l :: 0 <= l < k ==> Covered(scope, bs[l]))
    && (deciding > 0 <==> exists l :: 0 <= l < k && Decides(bs[l]))
    && deciding >= 0
  }

  lemma CoversOneMore(scope: Scope, bs: seq<Binding>, k: nat, deciding: int)
    requires k < |bs| && CoveredSoFar(scope, bs, k, deciding) && Covered(scope, bs[k])
    ensures CoveredSoFar(scope, bs, k + 1, if Decides(bs[k]) then deciding + 1 else deciding)
  {
  }

  method ScopeCoversRun(scope: Scope, bindings: seq<string>) returns (covered: bool)
    ensures covered <==> Covers(scope, bindings)
  {
    if |bindings| == 0 {
      return false;
    }
    ghost var bs := Parsed(bindings);
    var authoritative := 0;
    for k := 0 to |bindings|
      invariant CoveredSoFar(scope, bs, k, authoritative)
    {
      var ok, decides := CoversBinding(scope, ParseBinding(bindings[k]));
      ParsedAt(bindings, k);
      if !ok {
        return false;
      }
      CoversOneMore(scope, bs, k, authoritative);
      if decides {
        authoritative := authoritative + 1;
      }
    }
    covered := authoritative > 0;
  }

  /** A wider scope hides nothing. */
  lemma WiderScopeSeesMore(narrow: Scope, wide: Scope, bindings: seq<string>)
    requires narrow.assets <= wide.assets && narrow.units <= wide.units && narrow.releases <= wide.releases
    requires Covers(narrow, bindings)
    ensures Covers(wide, bindings)
  {
    var bs := Parsed(bindings);
    forall k | 0 <= k < |bs|
      ensures Covered(wide, bs[k])
    {
      assert Covered(narrow, bs[k]);
    }
  }

  // ---- page tokens -------------------------------------------------------------------------------

  /** Base64 of eight bytes, or nothing; the bytes stand for their encoding. */
  datatype Token = NoToken | Token(bytes: seq<Byte>)

  type Byte = b: int | 0 <= b < 256

  function BigEndian(n: nat, width: nat): (bytes: seq<Byte>)
    ensures |bytes| == width
  {
    if width == 0 then [] else BigEndian(n / 256, width - 1) + [n % 256]
  }

  function Number(bytes: seq<Byte>): nat {
    if bytes == [] then 0 else Number(bytes[..|bytes| - 1]) * 256 + bytes[|bytes| - 1]
  }

  function Capacity(width: nat): nat {
    if width == 0 then 1 else 256 * Capacity(width - 1)
  }

  function EncodePageOffset(n: int): Token {
    if n <= 0 then NoToken else Token(BigEndian(n, 8))
  }

  function DecodePageOffset(t: Token): Option<nat> {
    match t
    case NoToken => Some(0)
    case Token(bytes) => if |bytes| != 8 || Number(bytes) > MAX_INT then None else Some(Number(bytes))
  }

  lemma {:induction false} NumberOfBytes(n: nat, width: nat)
    requires n < Capacity(width)
    ensures Number(BigEndian(n, width)) == n
  {
    if width > 0 {
      NumberOfBytes(n / 256, width - 1);
      assert BigEndian(n, width)[..width - 1] == BigEndian(n / 256, width - 1);
    }
  }

  lemma EightBytes()
    ensures Capacity(8) == MAX_INT * 2 + 2
  {
    assert Capacity(1) == 256;
    assert Capacity(2) == 0x1_0000;
    assert Capacity(4) == 0x1_0000_0000;
    assert Capacity(6) == 0x1_0000_0000_0000;
  }

  /** Every offset survives the token. */
  lemma TokenRoundTrip(n: nat)
    requires n <= MAX_INT
    ensures DecodePageOffset(EncodePageOffset(n)) == Some(n)
  {
    EightBytes();
    NumberOfBytes(n, 8);
  }

  // ---- one page ----------------------------------------------------------------------------------

  function ClampPageSize(n: int): int {
    if n <= 0 then PAGE_SIZE_DEFAULT else if n > PAGE_SIZE_MAX then PAGE_SIZE_MAX else n
  }

  /** The rows of the state query, in display order; the filter is trimmed, and an empty one keeps every row. */
  function Matching(table: seq<Run>, filter: string): seq<Run> {
    if table == [] then []
    else Matching(table[..|table| - 1], filter) +
         if Asked(filter, table[|table| - 1]) then [table[|table| - 1]] else []
  }

  predicate Asked(filter: string, r: Run) {
    Trim(filter) == "" || r.state == Trim(filter)
  }

  /** The positions of a subsequence, in order. */
  predicate Picks(all: seq<Run>, some: seq<Run>, at: seq<nat>) {
    && |at| == |some|
    && (forall j :: 0 <= j < |at| ==> at[j] < |all| && some[j] == all[at[j]])
    && (forall j, l :: 0 <= j < l < |at| ==> at[j] < at[l])
  }

  lemma PicksLater(all: seq<Run>, some: seq<Run>, at: seq<nat>, n: nat)
    requires n < |all| && Picks(all, some, at) && forall k :: k in at ==> k < n
    ensures Picks(all, some + [all[n]], at + [n])
  {
    assert forall j :: 0 <= j < |at| ==> at[j] in at;
  }

  lemma PicksNext(all: seq<Run>, some: seq<Run>, at: seq<nat>, n: nat)
    requires n < |all| && Picks(all[..n], some, at)
    ensures Picks(all, some, at) && Picks(all, some + [all[n]], at + [n])
    ensures n !in at
  {
  }

  lemma {:induction false} MatchingPicks(table: seq<Run>, filter: string) returns (at: seq<nat>)
    ensures Picks(table, Matching(table, filter), at)
    ensures forall k :: 0 <= k < |table| ==> (k in at <==> Asked(filter, table[k]))
  {
    at := [];
    if table != [] {
      var n := |table| - 1;
      at := MatchingPicks(table[..n], filter);
      PicksNext(table, Matching(table[..n], filter), at, n);
      assert forall k :: 0 <= k < n ==> table[..n][k] == table[k];
      if Asked(filter, table[n]) {
        at := at + [n];
      }
    }
  }

  /** The state query keeps the order, and exactly the rows in the state asked for; a blank filter asks for every state. */
  lemma MatchingExactly(table: seq<Run>, filter: string) returns (at: seq<nat>)
    ensures Picks(table, Matching(table, filter), at)
    ensures forall k :: 0 <= k < |table| ==> (k in at <==> Blank(filter) || table[k].state == Trim(filter))
  {
    BlankTrims(filter);
    at := MatchingPicks(table, filter);
  }

  /** The visible runs among the rows from..end. */
  function Visible(rows: seq<Run>, scope: Scope, from: nat, end: nat): seq<Run>
    requires end <= |rows|
  {
    if from >= end then []
    else Visible(rows, scope, from, end - 1) + if Covers(scope, rows[end - 1].bindings) then [rows[end - 1]] else []
  }

  /** Listing keeps the order, and exactly the runs the scope covers. */
  lemma {:induction false} VisibleExactly(rows: seq<Run>, scope: Scope, from: nat, end: nat) returns (at: seq<nat>)
    requires end <= |rows|
    ensures Picks(rows, Visible(rows, scope, from, end), at)
    ensures forall k :: k in at ==> k < end
    ensures forall k :: 0 <= k < |rows| ==> (k in at <==> from <= k < end && Covers(scope, rows[k].bindings))
    decreases end
  {
    at := [];
    if from < end {
      at := VisibleExactly(rows, scope, from, end - 1);
      PicksLater(rows, Visible(rows, scope, from, end - 1), at, end - 1);
      if Covers(scope, rows[end - 1].bindings) {
        at := at + [end - 1];
      }
    }
  }

  datatype Page = Page(runs: seq<Run>, next: Token)

  /** What a page from `offset` must be: all the rest, or `limit` runs and the offset of the next visible one. */
  ghost predicate IsPage(rows: seq<Run>, scope: Scope, offset: nat, limit: nat, page: Page) {
    || (page.next == NoToken && |page.runs| <= limit && page.runs == Visible(rows, scope, offset, |rows|))
    || exists k :: NextAt(rows, scope, offset, limit, page, k)
  }

  predicate NextAt(rows: seq<Run>, scope: Scope, offset: nat, limit: nat, page: Page, k: int) {
    && offset < k < |rows| && page.next == EncodePageOffset(k) && |page.runs| == limit
    && page.runs == Visible(rows, scope, offset, k) && Covers(scope, rows[k].bindings)
  }

  /** One batch: the page so far, and where it ended if it is full and another visible run was met. */
  method ScanBatch(rows: seq<Run>, scope: Scope, limit: nat, before: seq<Run>, from: nat, end: nat, ghost offset: nat)
    returns (runs: seq<Run>, full: Option<nat>)
    requires offset <= from <= end <= |rows| && before == Visible(rows, scope, offset, from) && |before| <= limit
    ensures full.None? ==> runs == Visible(rows, scope, offset, end) && |runs| <= limit
    ensures full.Some? ==>
              && from <= full.value < end && |runs| == limit && runs == Visible(rows, scope, offset, full.value)
              && Covers(scope, rows[full.value].bindings)
  {
    runs := before;
    var seen := from;
    while seen < end
      invariant from <= seen <= end
      invariant runs == Visible(rows, scope, offset, seen) && |runs| <= limit
    {
      var candidate := seen;
      seen := seen + 1;
      var covered := ScopeCoversRun(scope, rows[candidate].bindings);
      if !covered {
        continue;
      }
      if |runs| == limit {
        return runs, Some(candidate);
      }
      runs := runs + [rows[candidate]];
    }
    full := None;
  }

  /** ListRuns after its checks: batches of at least the default page size, skipping what the caller may not see. */
  method ListRuns(table: seq<Run>, state: string, scope: Scope, token: Token, pageSize: int) returns (page: Option<Page>)
    ensures page.None? <==> DecodePageOffset(token).None?
    ensures page.Some? ==>
              IsPage(Matching(table, state), scope, DecodePageOffset(token).value, ClampPageSize(pageSize), page.value)
    ensures page.Some? ==>
              var limit := if pageSize <= 0 then 50 else if pageSize <= 200 then pageSize else 200;
              |page.value.runs| <= limit && (page.value.next != NoToken ==> |page.value.runs| == limit)
  {
    var start := DecodePageOffset(token);
    if start.None? {
      return None;
    }
    var offset, rows, limit := start.value, Matching(table, state), ClampPageSize(pageSize);
    var batchSize := if limit * 2 < PAGE_SIZE_DEFAULT then PAGE_SIZE_DEFAULT else limit * 2;
    var runs: seq<Run> := [];
    var scanOffset := offset;
    while true
      invariant offset <= scanOffset && (scanOffset == offset || scanOffset <= |rows|)
      invariant runs == if scanOffset == offset then [] else Visible(rows, scope, offset, scanOffset)
      invariant |runs| <= limit
      decreases |rows| - scanOffset
    {
      if scanOffset >= |rows| {
        break; // the query gives no row
      }
      var end := if scanOffset + batchSize < |rows| then scanOffset + batchSize else |rows|;
      var full;
      runs, full := ScanBatch(rows, scope, limit, runs, scanOffset, end, offset);
      if full.Some? {
        page := Some(Page(runs, EncodePageOffset(full.value)));
        assert NextAt(rows, scope, offset, limit, page.value, full.value);
        return;
      }
      var seen := end - scanOffset;
      scanOffset := end;
      if seen < batchSize {
        break;
      }
    }
    page := Some(Page(runs, NoToken));
  }

  // ---- all pages ---------------------------------------------------------------------------------

  /** A walk through the listing: each page asked for with the token of the one before, until there is none. */
  ghost predicate Walk(rows: seq<Run>, scope: Scope, limit: nat, offset: nat, pages: seq<Page>)
    decreases |pages|
  {
    && pages != []
    && IsPage(rows, scope, offset, limit, pages[0])
    && if pages[0].next == NoToken then |pages| == 1
       else DecodePageOffset(pages[0].next).Some?
            && Walk(rows, scope, limit, DecodePageOffset(pages[0].next).value, pages[1..])
  }

  function Runs(pages: seq<Page>): seq<Run> {
    if pages == [] then [] else pages[0].runs + Runs(pages[1..])
  }

  lemma {:induction false} VisibleSplits(rows: seq<Run>, scope: Scope, from: nat, mid: nat, end: nat)
    requires from <= mid <= end <= |rows|
    ensures Visible(rows, scope, from, end) == Visible(rows, scope, from, mid) + Visible(rows, scope, mid, end)
    decreases end
  {
    if mid < end {
      VisibleSplits(rows, scope, from, mid, end - 1);
    }
  }

  /** Following the tokens from `offset` gives exactly the visible rest, in order; only the last page may be short. */
  lemma {:induction false} PagingFrom(rows: seq<Run>, scope: Scope, limit: nat, offset: nat, pages: seq<Page>)
    requires offset <= |rows| <= MAX_INT && Walk(rows, scope, limit, offset, pages)
    ensures Runs(pages) == Visible(rows, scope, offset, |rows|)
    ensures forall k :: 0 <= k < |pages| ==> |pages[k].runs| <= limit && (k < |pages| - 1 ==> |pages[k].runs| == limit)
    decreases |pages|
  {
    if pages[0].next == NoToken {
      assert Runs(pages[1..]) == [];
    } else {
      var k :| NextAt(rows, scope, offset, limit, pages[0], k);
      TokenRoundTrip(k);
      PagingFrom(rows, scope, limit, k, pages[1..]);
      VisibleSplits(rows, scope, offset, k, |rows|);
      assert forall j :: 1 <= j < |pages| ==> pages[j] == pages[1..][j - 1];
    }
  }

  /** Paging refines filtering: no run is lost or repeated, on any table and for any page size. */
  lemma PagingRefinesFilter(table: seq<Run>, state: string, scope: Scope, pageSize: int, pages: seq<Page>)
    requires |Matching(table, state)| <= MAX_INT
    requires Walk(Matching(table, state), scope, ClampPageSize(pageSize), 0, pages)
    ensures Runs(pages) == Visible(Matching(table, state), scope, 0, |Matching(table, state)|)
    ensures forall k :: 0 <= k < |pages| ==>
              |pages[k].runs| <= ClampPageSize(pageSize) && (k < |pages| - 1 ==> |pages[k].runs| == ClampPageSize(pageSize))
  {
    PagingFrom(Matching(table, state), scope, ClampPageSize(pageSize), 0, pages);
  }

  /** The walk ends: each token lies further down the table. */
  lemma TokensAdvance(rows: seq<Run>, scope: Scope, limit: nat, offset: nat, page: Page)
    requires |rows| <= MAX_INT && IsPage(rows, scope, offset, limit, page) && page.next != NoToken
    ensures DecodePageOffset(page.next).Some? && offset < DecodePageOffset(page.next).value < |rows|
  {
    var k :| NextAt(rows, scope, offset, limit, page, k);
    TokenRoundTrip(k);
  }

  lemma {:induction false} RunsAppend(pages: seq<Page>, last: Page)
    ensures Runs(pages + [last]) == Runs(pages) + last.runs
  {
    if pages == [] {
      assert Runs([last][1..]) == [];
    } else {
      RunsAppend(pages[1..], last);
      assert (pages + [last])[1..] == pages[1..] + [last];
    }
  }

  /** A client that asks for one page after the other ends, and holds exactly the matching runs it may see. */
  method ListAll(table: seq<Run>, state: string, scope: Scope, pageSize: int) returns (runs: seq<Run>, ghost pages: seq<Page>)
    requires |Matching(table, state)| <= MAX_INT
    ensures runs == Visible(Matching(table, state), scope, 0, |Matching(table, state)|)
    ensures runs == Runs(pages)
    ensures forall k :: 0 <= k < |pages| ==>
              |pages[k].runs| <= ClampPageSize(pageSize) && (k < |pages| - 1 ==> |pages[k].runs| == ClampPageSize(pageSize))
  {
    ghost var rows, limit := Matching(table, state), ClampPageSize(pageSize);
    var token := NoToken;
    ghost var offset := 0;
    runs, pages := [], [];
    while true
      invariant DecodePageOffset(token) == Some(offset) && offset <= |rows|
      invariant runs == Visible(rows, scope, 0, offset) == Runs(pages)
      invariant forall k :: 0 <= k < |pages| ==> |pages[k].runs| == limit
      decreases |rows| - offset
    {
      var page := ListRuns(table, state, scope, token, pageSize);
      runs := runs + page.value.runs;
      RunsAppend(pages, page.value);
      pages := pages + [page.value];
      if page.value.next == NoToken {
        VisibleSplits(rows, scope, 0, offset, |rows|);
        return;
      }
      ghost var k :| NextAt(rows, scope, offset, limit, page.value, k);
      VisibleSplits(rows, scope, 0, offset, k);
      TokenRoundTrip(k);
      token, offset := page.value.next, k;
    }
  }
}
