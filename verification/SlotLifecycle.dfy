/**
 Which blocks of the tail pool a step needs, and how many there can be. A step writes, for every
 scheduled request, the blocks from its committed boundary to its new end.
 */
module SlotLifecycle {
  import opened MapSums
  import opened Prelude

  /** One scheduled request: its block table row, its length after the step, its new tokens. */
  datatype Request = Request(row: seq<int>, len: nat, query: nat)

  function Committed(r: Request): nat { if r.query <= r.len then r.len - r.query else 0 }

  /** The first block index a step writes. */
  function FirstWritten(r: Request, group: nat): nat
    requires group >= 1
  {
    Committed(r) / group
  }

  /** The block index after the last one a step writes. */
  function EndWritten(r: Request, group: nat): (k: nat)
    requires group >= 1
    ensures k <= |r.row|
  {
    if r.len == 0 || r.row == [] then 0
    else if (r.len - 1) / group < |r.row| - 1 then (r.len - 1) / group + 1
    else |r.row|
  }

  /** Tokens present in block `k` after the step. */
  function FillAt(len: nat, group: nat, k: nat): int {
    (if len < (k + 1) * group then len else (k + 1) * group) - k * group
  }

  /** The valid block ids among entries `lo` to `hi - 1` of a block table row. */
  function Collected(row: seq<int>, lo: nat, hi: nat): set<int>
    requires hi <= |row|
  {
    if hi <= lo then {} else Collected(row, lo, hi - 1) + if row[hi - 1] >= 0 then {row[hi - 1]} else {}
  }

  /** The blocks a request writes this step. */
  function Writes(r: Request, group: nat): set<int>
    requires group >= 1
  {
    Collected(r.row, FirstWritten(r, group), EndWritten(r, group))
  }

  function Needed(reqs: seq<Request>, group: nat): set<int>
    requires group >= 1
  {
    if reqs == [] then {} else Needed(reqs[..|reqs| - 1], group) + Writes(reqs[|reqs| - 1], group)
  }

  function Tokens(reqs: seq<Request>): nat {
    if reqs == [] then 0 else Tokens(reqs[..|reqs| - 1]) + reqs[|reqs| - 1].query
  }

  // ----- sizes of sets

  lemma {:induction false} SubsetSize<T>(a: set<T>, b: set<T>)
    requires a <= b
    ensures |a| <= |b|
    decreases |a|
  {
    if a != {} {
      var x := Pick(a);
      SubsetSize(a - {x}, b - {x});
    }
  }

  lemma UnionSize<T>(a: set<T>, b: set<T>)
    ensures |a + b| <= |a| + |b|
  {
    assert a + b == a + (b - a);
    SubsetSize(b - a, b);
  }

  lemma {:induction false} CollectedSize(row: seq<int>, lo: nat, hi: nat)
    requires hi <= |row|
    ensures |Collected(row, lo, hi)| <= if lo < hi then hi - lo else 0
  {
    if lo < hi {
      CollectedSize(row, lo, hi - 1);
      UnionSize(Collected(row, lo, hi - 1), if row[hi - 1] >= 0 then {row[hi - 1]} else {});
    }
  }

  lemma {:induction false} CollectedHas(row: seq<int>, lo: nat, hi: nat, k: nat)
    requires lo <= k < hi <= |row| && row[k] >= 0
    ensures row[k] in Collected(row, lo, hi)
  {
    if k < hi - 1 { CollectedHas(row, lo, hi - 1, k); }
  }

  // ----- how many blocks a step can need

  lemma QuotientBelow(n: nat, k: int, group: nat)
    requires group >= 1 && n < k * group
    ensures n / group < k
  {
    assert n / group * group <= n;
    MulLess(n / group, k, group);
  }

  lemma QuotientAtLeast(n: nat, k: int, group: nat)
    requires group >= 1 && k * group <= n
    ensures k <= n / group
  {
    assert n < (n / group + 1) * group;
    MulLess(k, n / group + 1, group);
  }

  lemma Spread(a: int, b: int, group: int)
    ensures (a + b) * group == a * group + b * group
  {
  }

  lemma SpanBound(c: nat, q: nat, group: nat)
    requires group >= 1
    ensures (c + q) / group <= c / group + q / group + 1
  {
    var a, b := c / group, q / group;
    assert c < (a + 1) * group && q < (b + 1) * group;
    Spread(a + 1, b + 1, group);
    QuotientBelow(c + q, a + 1 + (b + 1), group);
  }

  lemma DivMonotone(a: nat, b: nat, group: nat)
    requires a <= b && group >= 1
    ensures a / group <= b / group
  {
    assert a / group * group <= a;
    QuotientAtLeast(b, a / group, group);
  }

  lemma DivAdd(a: nat, b: nat, group: nat)
    requires group >= 1
    ensures a / group + b / group <= (a + b) / group
  {
    assert a / group * group <= a && b / group * group <= b;
    Spread(a / group, b / group, group);
    QuotientAtLeast(a + b, a / group + b / group, group);
  }

  /** A request with `q` new tokens writes at most `q / group + 2` blocks. */
  lemma WritesBound(r: Request, group: nat)
    requires group >= 1
    ensures |Writes(r, group)| <= r.query / group + 2
  {
    hide Collected;
    CollectedSize(r.row, FirstWritten(r, group), EndWritten(r, group));
    if r.len > 0 {
      SpanCount(Committed(r), r.len - 1, r.query, group);
    }
  }

  lemma SpanCount(c: nat, last: nat, query: nat, group: nat)
    requires group >= 1 && last <= c + query
    ensures last / group <= c / group + query / group + 1
  {
    DivMonotone(last, c + query, group);
    SpanBound(c, query, group);
  }

  /** A whole step needs at most two blocks per request plus one per `group` scheduled tokens. */
  lemma {:induction false} NeededBound(reqs: seq<Request>, group: nat)
    requires group >= 1
    ensures |Needed(reqs, group)| <= 2 * |reqs| + Tokens(reqs) / group
  {
    hide Writes;
    if reqs != [] {
      var k := |reqs| - 1;
      NeededBound(reqs[..k], group);
      WritesBound(reqs[k], group);
      DivAdd(Tokens(reqs[..k]), reqs[k].query, group);
      UnionSize(Needed(reqs[..k], group), Writes(reqs[k], group));
    }
  }

  /** The default pool size: two slots per request, one per `group` tokens of a step, at least 64. */
  function PoolSlots(maxSeqs: nat, maxTokens: nat, group: nat): nat
    requires group >= 1
  {
    var n := 2 * maxSeqs + (maxTokens + group - 1) / group;
    if n < 64 then 64 else n
  }

  /** The default pool size covers every step the scheduler may form. */
  lemma PoolNeverTooSmall(reqs: seq<Request>, group: nat, maxSeqs: nat, maxTokens: nat)
    requires group >= 1 && |reqs| <= maxSeqs && Tokens(reqs) <= maxTokens
    ensures |Needed(reqs, group)| <= PoolSlots(maxSeqs, maxTokens, group)
  {
    hide Needed, Tokens;
    NeededBound(reqs, group);
    DivMonotone(Tokens(reqs), maxTokens + group - 1, group);
  }

  /** Rounding a quotient up gives the least multiplier that covers the number. */
  lemma CeilingIsLeast(n: nat, group: nat, k: nat)
    requires group >= 1
    ensures (n + group - 1) / group <= k <==> n <= k * group
  {
    Spread(k, 1, group);
    if n <= k * group {
      QuotientBelow(n + group - 1, k + 1, group);
    } else {
      QuotientAtLeast(n + group - 1, k + 1, group);
    }
  }

  /** It is the least pool of at least 64 slots with two per request and one per `group` tokens. */
  lemma PoolSlotsIsLeast(maxSeqs: nat, maxTokens: nat, group: nat, slots: nat)
    requires group >= 1
    ensures PoolSlots(maxSeqs, maxTokens, group) <= slots <==>
            slots >= 64 && slots >= 2 * maxSeqs && maxTokens <= (slots - 2 * maxSeqs) * group
  {
    if slots >= 2 * maxSeqs { CeilingIsLeast(maxTokens, group, slots - 2 * maxSeqs); }
  }

  // ----- what the block ranges and the fill count

  /** Block `k` holds the tokens from its start on, as many as its fill. */
  lemma FillCounts(len: nat, group: nat, k: nat, p: nat)
    requires group >= 1 && k * group <= len
    ensures 0 <= FillAt(len, group, k) <= group
    ensures p < len && p / group == k <==> k * group <= p < k * group + FillAt(len, group, k)
  {
    Spread(k, 1, group);
    if p / group == k {
      assert p / group * group <= p < (p / group + 1) * group;
    }
    if k * group <= p < (k + 1) * group {
      QuotientAtLeast(p, k, group);
      QuotientBelow(p, k + 1, group);
    }
  }

  /** Request `i` has a new token `p` that goes to block `b`. */
  predicate TokenGoesTo(reqs: seq<Request>, group: nat, b: int, i: nat, p: nat)
    requires group >= 1
  {
    && i < |reqs| && p < reqs[i].len <= p + reqs[i].query && p / group < |reqs[i].row|
    && reqs[i].row[p / group] == b && b >= 0
  }

  /** A step needs exactly the blocks that its new tokens go to. */
  lemma NeededIsNewTokens(reqs: seq<Request>, group: nat, b: int)
    requires group >= 1 && forall i | 0 <= i < |reqs| :: reqs[i].query >= 1
    ensures b in Needed(reqs, group) <==> exists i: nat, p: nat :: TokenGoesTo(reqs, group, b, i, p)
  {
    hide Needed;
    if b in Needed(reqs, group) {
      var i, k := NeededFrom(reqs, group, b);
      var p := WrittenHasToken(reqs[i], group, k);
      assert TokenGoesTo(reqs, group, b, i, p);
    }
    if i: nat, p: nat :| TokenGoesTo(reqs, group, b, i, p) {
      TokenIsWritten(reqs[i], group, p);
      NeededHas(reqs, group, i, p / group);
    }
  }

  lemma WrittenHasToken(r: Request, group: nat, k: nat) returns (p: nat)
    requires group >= 1 && r.query >= 1 && FirstWritten(r, group) <= k < EndWritten(r, group)
    ensures p < r.len <= p + r.query && p / group == k
  {
    p := TokenOfBlock(Committed(r), r.len, group, k);
  }

  lemma TokenOfBlock(c: nat, len: nat, group: nat, k: nat) returns (p: nat)
    requires group >= 1 && c < len && c / group <= k <= (len - 1) / group
    ensures c <= p < len && p / group == k
  {
    p := c;
    if k > c / group {
      p := k * group;
      BlockStart(k, group);
      if p < c { DivMonotone(p, c, group); }
      if p >= len { QuotientBelow(len - 1, k, group); }
    }
  }

  lemma BlockStart(k: nat, group: nat)
    requires group >= 1
    ensures k * group / group == k
  {
    QuotientAtLeast(k * group, k, group);
    Spread(k, 1, group);
    QuotientBelow(k * group, k + 1, group);
  }

  lemma TokenIsWritten(r: Request, group: nat, p: nat)
    requires group >= 1 && p < r.len <= p + r.query && p / group < |r.row|
    ensures FirstWritten(r, group) <= p / group < EndWritten(r, group)
  {
    DivMonotone(Committed(r), p, group);
    DivMonotone(p, r.len - 1, group);
  }

  // ----- the shortcut for steady decode steps

  /** Every request grew by one token and its tail block is neither new nor just filled. */
  predicate SkipGuard(prev: seq<nat>, reqs: seq<Request>, group: nat)
    requires group >= 1
  {
    && Tokens(reqs) == |reqs| && |prev| == |reqs|
    && forall i | 0 <= i < |reqs| :: reqs[i].len == prev[i] + 1 && reqs[i].len % group > 1
  }

  /** What lengths alone can show: `r` decodes one token into the block where `o` ended, away from its edges. */
  predicate SteadyLength(o: Request, r: Request, group: nat)
    requires group >= 1
  {
    && o.query >= 1 && r.query == 1 && 1 <= o.len < r.len && r.len % group > 1
    && (o.len - 1) / group == (r.len - 1) / group
  }

  /** The block tables are the same up to the last block written; what follows is not used. */
  predicate SameRow(o: Request, r: Request, group: nat)
    requires group >= 1
  {
    && EndWritten(o, group) == EndWritten(r, group)
    && o.row[..EndWritten(r, group)] == r.row[..EndWritten(r, group)]
  }

  /** `r` continues `o` by decoded tokens. */
  predicate Continues(o: Request, r: Request, group: nat)
    requires group >= 1
  {
    SteadyLength(o, r, group) && SameRow(o, r, group)
  }

  lemma TailBlock(len: nat, group: nat)
    requires group >= 1 && len % group > 1
    ensures (len - 1) / group == (len - 2) / group == len / group
  {
    var q, x := len / group, len % group;
    assert len == q * group + x;
    assert (q + 1) * group == q * group + group;
    QuotientAtLeast(len - 2, q, group);
    QuotientBelow(len - 1, q + 1, group);
    DivMonotone(len - 2, len - 1, group);
  }

  /** In a skipped step the tail block is not complete, so it would be dropped, not flushed. */
  lemma SkippedTailIncomplete(len: nat, group: nat)
    requires group >= 1 && len % group > 1
    ensures FillAt(len, group, (len - 1) / group) == len % group < group
  {
    TailBlock(len, group);
    var q := len / group;
    assert len == q * group + len % group;
    assert (q + 1) * group == q * group + group;
  }

  /** A steady request writes at most its tail block. */
  lemma SteadyWrites(o: Request, r: Request, group: nat)
    requires group >= 1 && SteadyLength(o, r, group)
    ensures FirstWritten(r, group) == (r.len - 1) / group && EndWritten(r, group) <= FirstWritten(r, group) + 1
    ensures FirstWritten(o, group) <= FirstWritten(r, group)
  {
    DivMonotone(Committed(o), o.len - 1, group);
  }

  // ----- who needs a block

  /** Request `i` of the step writes its block `k`. */
  predicate WritesAt(reqs: seq<Request>, group: nat, i: nat, k: nat)
    requires group >= 1
  {
    && i < |reqs| && FirstWritten(reqs[i], group) <= k < EndWritten(reqs[i], group)
    && reqs[i].row[k] >= 0
  }

  predicate NeededBy(reqs: seq<Request>, group: nat, b: int, i: nat, k: nat)
    requires group >= 1
  {
    WritesAt(reqs, group, i, k) && reqs[i].row[k] == b
  }

  lemma {:induction false} CollectedFrom(row: seq<int>, lo: nat, hi: nat, b: int) returns (k: nat)
    requires hi <= |row| && b in Collected(row, lo, hi)
    ensures lo <= k < hi && row[k] == b && b >= 0
  {
    if b in Collected(row, lo, hi - 1) { k := CollectedFrom(row, lo, hi - 1, b); } else { k := hi - 1; }
  }

  /** A needed block is written by some request. */
  lemma {:induction false} NeededFrom(reqs: seq<Request>, group: nat, b: int) returns (i: nat, k: nat)
    requires group >= 1 && b in Needed(reqs, group)
    ensures NeededBy(reqs, group, b, i, k)
  {
    hide Collected;
    var n := |reqs| - 1;
    if b in Needed(reqs[..n], group) {
      i, k := NeededFrom(reqs[..n], group, b);
    } else {
      i := n;
      k := CollectedFrom(reqs[n].row, FirstWritten(reqs[n], group), EndWritten(reqs[n], group), b);
    }
  }

  /** Every block a request writes is needed. */
  lemma {:induction false} NeededHas(reqs: seq<Request>, group: nat, i: nat, k: nat)
    requires group >= 1 && WritesAt(reqs, group, i, k)
    ensures reqs[i].row[k] in Needed(reqs, group)
  {
    hide Collected;
    var n := |reqs| - 1;
    if i < n {
      NeededHas(reqs[..n], group, i, k);
    } else {
      CollectedHas(reqs[n].row, FirstWritten(reqs[n], group), EndWritten(reqs[n], group), k);
    }
  }

  /** A request that continues writes one block, which an earlier step of it wrote as well. */
  lemma ContinuedWrites(olds: seq<Request>, reqs: seq<Request>, group: nat, i: nat, k: nat)
    requires group >= 1 && |olds| == |reqs| && i < |reqs| && Continues(olds[i], reqs[i], group)
    requires WritesAt(reqs, group, i, k)
    ensures k == (reqs[i].len - 1) / group && WritesAt(olds, group, i, k) && olds[i].row[k] == reqs[i].row[k]
  {
    SteadyWrites(olds[i], reqs[i], group);
    var end := EndWritten(reqs[i], group);
    assert olds[i].row[..end][k] == reqs[i].row[..end][k];
  }

  /** A skipped step needs no block that the step it continues did not need. */
  lemma SkipNeedsNothingNew(olds: seq<Request>, reqs: seq<Request>, group: nat)
    requires group >= 1 && |olds| == |reqs|
    requires forall i | 0 <= i < |reqs| :: Continues(olds[i], reqs[i], group)
    ensures Needed(reqs, group) <= Needed(olds, group)
  {
    hide Needed, Continues, FirstWritten, EndWritten;
    forall b | b in Needed(reqs, group) ensures b in Needed(olds, group) {
      var i, k := NeededFrom(reqs, group, b);
      ContinuedWrites(olds, reqs, group, i, k);
      NeededHas(olds, group, i, k);
    }
  }
}
