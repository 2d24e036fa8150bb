/**
 * An approved evidence request is split into one request per unit (lib/brain/approval_service.go): the handles are
 * grouped by the unit that holds them, and the byte budget is divided in proportion.
 */
module EvidenceSplit {
  import opened Text

  /** A review candidate row: where a handle lives. */
  datatype Candidate = Candidate(handle: string, unit: string)

  /** The units in order of first appearance, and the handles of each. */
  datatype Groups = Groups(order: seq<string>, byUnit: map<string, seq<string>>)

  datatype UnitRequest = UnitRequest(unit: string, handles: seq<string>, maxBytes: int)

  datatype Outcome = Split(requests: seq<UnitRequest>) | Ambiguous | Changed | TooSmall | NoHandles

  /** Bytes for a unit holding `held` of `all` handles. */
  function Share(maxBytes: nat, held: nat, all: nat): nat
    requires all > 0
  {
    maxBytes * held / all
  }

  function Handles(rows: seq<Candidate>): seq<string> {
    seq(|rows|, k requires 0 <= k < |rows| => rows[k].handle)
  }

  /** All handles of all requests. */
  function Parts(requests: seq<UnitRequest>): multiset<string> {
    if requests == [] then multiset{}
    else Parts(requests[..|requests| - 1]) + multiset(requests[|requests| - 1].handles)
  }

  function Budget(requests: seq<UnitRequest>): int {
    if requests == [] then 0 else Budget(requests[..|requests| - 1]) + requests[|requests| - 1].maxBytes
  }

  /** Every row names a unit, and no handle twice. */
  predicate Unambiguous(rows: seq<Candidate>) {
    && (forall k :: 0 <= k < |rows| ==> rows[k].unit != "")
    && (forall k, l :: 0 <= k < l < |rows| ==> rows[k].handle != rows[l].handle)
  }

  // ---- arithmetic --------------------------------------------------------------------------------

  lemma ShareFloor(maxBytes: nat, held: nat, all: nat)
    requires all > 0
    ensures all * Share(maxBytes, held, all) <= maxBytes * held < all * (Share(maxBytes, held, all) + 1)
  {
  }

  /** A unit's share covers its handles exactly when the whole budget covers all of them. */
  lemma ShareCovers(maxBytes: nat, held: nat, all: nat)
    requires all > 0 && held > 0
    ensures Share(maxBytes, held, all) >= held <==> maxBytes >= all
  {
    ShareFloor(maxBytes, held, all);
    var share := Share(maxBytes, held, all);
    if maxBytes >= all {
      MulMono(all, maxBytes, held);
      if share < held {
        MulMono(share + 1, held, all);
      }
    } else {
      if share >= held {
        MulMono(held, share, all);
        MulStrict(maxBytes, all, held);
      }
    }
  }

  lemma MulMono(a: nat, b: nat, c: nat)
    requires a <= b
    ensures a * c <= b * c && c * a <= c * b
  {
  }

  lemma MulStrict(a: nat, b: nat, c: nat)
    requires a < b && c > 0
    ensures a * c < b * c
  {
  }

  /** Shares rounded down never add up to more than the whole. */
  lemma {:induction false} SharesFit(requests: seq<UnitRequest>, maxBytes: nat, all: nat)
    requires all > 0
    requires forall k :: 0 <= k < |requests| ==> requests[k].maxBytes == Share(maxBytes, |requests[k].handles|, all)
    ensures all * Budget(requests) <= maxBytes * |Parts(requests)|
  {
    if requests != [] {
      var last := requests[|requests| - 1];
      SharesFit(requests[..|requests| - 1], maxBytes, all);
      ShareFloor(maxBytes, |last.handles|, all);
      var rest := requests[..|requests| - 1];
      AddBoth(all, Budget(rest), last.maxBytes, maxBytes, |Parts(rest)|, |last.handles|);
    }
  }

  lemma AddBoth(a: int, b: int, c: int, d: int, e: int, f: int)
    requires a * b <= d * e && a * c <= d * f
    ensures a * (b + c) <= d * (e + f)
  {
    assert a * (b + c) == a * b + a * c;
    assert d * (e + f) == d * e + d * f;
  }

  lemma DivideOut(all: nat, budget: int, maxBytes: nat)
    requires all > 0 && all * budget <= maxBytes * all
    ensures budget <= maxBytes
  {
    if budget > maxBytes {
      MulStrict(maxBytes, budget, all);
    }
  }

  // ---- pigeonhole --------------------------------------------------------------------------------

  /** Distinct elements of a sequence, as many as it has: the same elements. */
  lemma {:induction false} SameElements(a: seq<string>, b: seq<string>)
    requires forall k, l :: 0 <= k < l < |a| ==> a[k] != a[l]
    requires forall k :: 0 <= k < |a| ==> a[k] in b
    requires |a| == |b|
    ensures multiset(a) == multiset(b)
    decreases |a|
  {
    if a != [] {
      var n := |a| - 1;
      var x := a[n];
      var j :| 0 <= j < |b| && b[j] == x;
      var rest := b[..j] + b[j + 1..];
      forall k | 0 <= k < n
        ensures a[..n][k] in rest
      {
        var i :| 0 <= i < |b| && b[i] == a[k];
        assert rest[if i < j then i else i - 1] == a[k];
      }
      SameElements(a[..n], rest);
      assert a == a[..n] + [x];
      assert b == b[..j] + [x] + b[j + 1..];
    }
  }

  // ---- the decision ------------------------------------------------------------------------------

  /** The groups hold exactly these rows' handles. */
  ghost predicate Grouped(g: Groups, rows: seq<Candidate>) {
    && (forall u :: u in g.order <==> u in g.byUnit)
    && (forall k, l :: 0 <= k < l < |g.order| ==> g.order[k] != g.order[l])
    && (forall u :: u in g.byUnit ==> |g.byUnit[u]| > 0)
    && (forall u, h :: u in g.byUnit && h in g.byUnit[u] ==> Candidate(h, u) in rows)
  }

  function Requests(order: seq<string>, byUnit: map<string, seq<string>>, maxBytes: nat, all: nat): (rs: seq<UnitRequest>)
    requires all > 0 && forall u :: u in order ==> u in byUnit
    ensures |rs| == |order|
    ensures forall k :: 0 <= k < |rs| ==>
              rs[k] == UnitRequest(order[k], byUnit[order[k]], Share(maxBytes, |byUnit[order[k]]|, all))
  {
    seq(|order|, k requires 0 <= k < |order| =>
      UnitRequest(order[k], byUnit[order[k]], Share(maxBytes, |byUnit[order[k]]|, all)))
  }

  /** Adding one handle to one group adds it once. */
  lemma {:induction false} PartsAdd(order: seq<string>, byUnit: map<string, seq<string>>, unit: string, h: string)
    requires forall u :: u in order ==> u in byUnit
    requires forall k, l :: 0 <= k < l < |order| ==> order[k] != order[l]
    requires unit in byUnit
    ensures var more := byUnit[unit := byUnit[unit] + [h]];
            PartsOf(order, more) == PartsOf(order, byUnit) + if unit in order then multiset{h} else multiset{}
  {
    var more := byUnit[unit := byUnit[unit] + [h]];
    if order != [] {
      var n := |order| - 1;
      PartsAdd(order[..n], byUnit, unit, h);
      assert order == order[..n] + [order[n]];
    }
  }

  function PartsOf(order: seq<string>, byUnit: map<string, seq<string>>): multiset<string>
    requires forall u :: u in order ==> u in byUnit
  {
    if order == [] then multiset{}
    else PartsOf(order[..|order| - 1], byUnit) + multiset(byUnit[order[|order| - 1]])
  }

  lemma {:induction false} PartsAgree(order: seq<string>, byUnit: map<string, seq<string>>, maxBytes: nat, all: nat)
    requires all > 0 && forall u :: u in order ==> u in byUnit
    ensures Parts(Requests(order, byUnit, maxBytes, all)) == PartsOf(order, byUnit)
  {
    if order != [] {
      var n := |order| - 1;
      PartsAgree(order[..n], byUnit, maxBytes, all);
      assert Requests(order, byUnit, maxBytes, all)[..n] == Requests(order[..n], byUnit, maxBytes, all);
    }
  }

  lemma {:induction false} PartsFrame(order: seq<string>, byUnit: map<string, seq<string>>, more: map<string, seq<string>>)
    requires forall u :: u in order ==> u in byUnit && u in more && more[u] == byUnit[u]
    ensures PartsOf(order, more) == PartsOf(order, byUnit)
  {
    if order != [] {
      PartsFrame(order[..|order| - 1], byUnit, more);
    }
  }

  lemma GroupedAdd(g: Groups, rows: seq<Candidate>, row: Candidate)
    requires Grouped(g, rows) && row.unit in g.byUnit
    ensures Grouped(Groups(g.order, g.byUnit[row.unit := g.byUnit[row.unit] + [row.handle]]), rows + [row])
  {
    var more := g.byUnit[row.unit := g.byUnit[row.unit] + [row.handle]];
    forall u, h | u in more && h in more[u]
      ensures Candidate(h, u) in rows + [row]
    {
      if u == row.unit && h == row.handle {
        assert (rows + [row])[|rows|] == Candidate(h, u);
      } else {
        assert h in g.byUnit[u] && Candidate(h, u) in rows;
      }
    }
  }

  lemma GroupedNew(g: Groups, rows: seq<Candidate>, row: Candidate)
    requires Grouped(g, rows) && row.unit !in g.byUnit
    ensures Grouped(Groups(g.order + [row.unit], g.byUnit[row.unit := [row.handle]]), rows + [row])
  {
    var more := g.byUnit[row.unit := [row.handle]];
    forall u, h | u in more && h in more[u]
      ensures Candidate(h, u) in rows + [row]
    {
      if u == row.unit {
        assert (rows + [row])[|rows|] == Candidate(h, u);
      } else {
        assert h in g.byUnit[u] && Candidate(h, u) in rows;
      }
    }
    forall k, l | 0 <= k < l < |g.order + [row.unit]|
      ensures (g.order + [row.unit])[k] != (g.order + [row.unit])[l]
    {
      assert g.order[k] in g.byUnit;
    }
  }

  /** One row into the groups. */
  method Place(g: Groups, rows: seq<Candidate>, row: Candidate) returns (g': Groups)
    requires Grouped(g, rows)
    ensures Grouped(g', rows + [row])
    ensures PartsOf(g'.order, g'.byUnit) == PartsOf(g.order, g.byUnit) + multiset{row.handle}
  {
    if row.unit in g.byUnit {
      PartsAdd(g.order, g.byUnit, row.unit, row.handle);
      GroupedAdd(g, rows, row);
      g' := Groups(g.order, g.byUnit[row.unit := g.byUnit[row.unit] + [row.handle]]);
    } else {
      GroupedNew(g, rows, row);
      g' := Groups(g.order + [row.unit], g.byUnit[row.unit := [row.handle]]);
      PartsFrame(g.order, g.byUnit, g'.byUnit);
      assert g'.order[..|g.order|] == g.order;
    }
  }

  /** The first loop after the rows `done`: none ambiguous, all grouped, all their handles found. */
  ghost predicate Gathered(g: Groups, found: set<string>, done: seq<Candidate>) {
    && Grouped(g, done) && Unambiguous(done)
    && PartsOf(g.order, g.byUnit) == multiset(Handles(done))
    && |found| == |done| && forall h :: h in found <==> h in Handles(done)
  }

  lemma FoundGrows(found: set<string>, done: seq<Candidate>, row: Candidate)
    requires |found| == |done| && (forall h :: h in found <==> h in Handles(done)) && row.handle !in found
    ensures |found + {row.handle}| == |done + [row]|
    ensures forall h :: h in found + {row.handle} <==> h in Handles(done + [row])
    ensures multiset(Handles(done + [row])) == multiset(Handles(done)) + multiset{row.handle}
  {
    assert Handles(done + [row]) == Handles(done) + [row.handle];
  }

  lemma StillUnambiguous(done: seq<Candidate>, row: Candidate)
    requires Unambiguous(done) && row.unit != "" && row.handle !in Handles(done)
    ensures Unambiguous(done + [row])
  {
    var after := done + [row];
    forall k, l | 0 <= k < l < |after|
      ensures after[k].handle != after[l].handle
    {
      assert after[k] == done[k] && Handles(done)[k] == done[k].handle;
    }
  }

  /** The first loop: group the rows, refusing a row without a unit and a handle seen before. */
  method Group(rows: seq<Candidate>) returns (g: Option<Groups>, found: set<string>)
    ensures g.Some? <==> Unambiguous(rows)
    ensures g.Some? ==> Gathered(g.value, found, rows)
  {
    var groups := Groups([], map[]);
    found := {};
    for i := 0 to |rows|
      invariant Gathered(groups, found, rows[..i])
    {
      if rows[i].unit == "" {
        return None, found;
      }
      if rows[i].handle in found {
        ghost var k :| 0 <= k < i && Handles(rows[..i])[k] == rows[i].handle;
        return None, found;
      }
      assert rows[..i + 1] == rows[..i] + [rows[i]];
      StillUnambiguous(rows[..i], rows[i]);
      FoundGrows(found, rows[..i], rows[i]);
      groups := Place(groups, rows[..i], rows[i]);
      found := found + {rows[i].handle};
    }
    assert rows[..|rows|] == rows;
    g := Some(groups);
  }

  /** The second loop: one request per unit, refusing a share smaller than its handles. */
  method Allot(g: Groups, ghost rows: seq<Candidate>, maxBytes: nat, all: nat) returns (rs: Option<seq<UnitRequest>>)
    requires Grouped(g, rows) && all > 0 && g.order != []
    ensures rs.Some? <==> maxBytes >= all
    ensures rs.Some? ==> rs.value == Requests(g.order, g.byUnit, maxBytes, all)
  {
    var requests: seq<UnitRequest> := [];
    for i := 0 to |g.order|
      invariant requests == Requests(g.order[..i], g.byUnit, maxBytes, all)
      invariant i > 0 ==> maxBytes >= all
    {
      var held := g.byUnit[g.order[i]];
      var share := Share(maxBytes, |held|, all);
      ShareCovers(maxBytes, |held|, all);
      if share < |held| {
        return None;
      }
      requests := requests + [UnitRequest(g.order[i], held, share)];
      assert requests == Requests(g.order[..i + 1], g.byUnit, maxBytes, all);
    }
    assert g.order[..|g.order|] == g.order;
    rs := Some(requests);
  }

  /** The requests of a full allotment partition the handles, within the budget. */
  lemma Partitions(g: Groups, rows: seq<Candidate>, maxBytes: nat, all: nat)
    requires Grouped(g, rows) && all > 0 && maxBytes >= all
    requires PartsOf(g.order, g.byUnit) == multiset(Handles(rows)) && |rows| == all
    ensures var rs := Requests(g.order, g.byUnit, maxBytes, all);
            && Parts(rs) == multiset(Handles(rows))
            && (forall k :: 0 <= k < |rs| ==> 1 <= |rs[k].handles| <= rs[k].maxBytes)
            && Budget(rs) <= maxBytes
  {
    var rs := Requests(g.order, g.byUnit, maxBytes, all);
    PartsAgree(g.order, g.byUnit, maxBytes, all);
    SharesFit(rs, maxBytes, all);
    DivideOut(all, Budget(rs), maxBytes);
    forall k | 0 <= k < |rs|
      ensures 1 <= |rs[k].handles| <= rs[k].maxBytes
    {
      ShareCovers(maxBytes, |rs[k].handles|, all);
    }
  }

  /**
   * decideEvidence, for an approved request. `rows` is the answer of the candidate query: rows of approved handles.
   * It splits exactly when the rows are unambiguous, cover the handles, and the budget has a byte for each; then the
   * requests partition the handles and their budgets add up to no more than was approved.
   */
  method DecideEvidence(handles: seq<string>, rows: seq<Candidate>, maxBytes: nat) returns (r: Outcome)
    requires forall k :: 0 <= k < |rows| ==> rows[k].handle in handles
    ensures r.Split? <==> handles != [] && Unambiguous(rows) && |rows| == |handles| && maxBytes >= |handles|
    ensures r == TooSmall <==> handles != [] && Unambiguous(rows) && |rows| == |handles| && maxBytes < |handles|
    ensures r.Split? ==>
              && Parts(r.requests) == multiset(handles) == multiset(Handles(rows))
              && (forall k, l :: 0 <= k < l < |r.requests| ==> r.requests[k].unit != r.requests[l].unit)
              && (forall k, h :: 0 <= k < |r.requests| && h in r.requests[k].handles ==> Candidate(h, r.requests[k].unit) in rows)
              && (forall k :: 0 <= k < |r.requests| ==>
                    && 1 <= |r.requests[k].handles| <= r.requests[k].maxBytes
                    && r.requests[k].maxBytes == Share(maxBytes, |r.requests[k].handles|, |handles|))
              && Budget(r.requests) <= maxBytes
  {
    if handles == [] {
      return NoHandles;
    }
    var groups, found := Group(rows);
    if groups.None? {
      return Ambiguous;
    }
    var g := groups.value;
    if |found| != |handles| {
      return Changed;
    }
    SameElements(Handles(rows), handles);
    assert |PartsOf(g.order, g.byUnit)| == |rows| > 0;
    var requests := Allot(g, rows, maxBytes, |handles|);
    if requests.None? {
      return TooSmall;
    }
    Partitions(g, rows, maxBytes, |handles|);
    r := Split(requests.value);
  }
}
