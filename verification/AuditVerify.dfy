/** The audit chain verifier, adapters/postgres/audit_verify_core.go, and what it is worth.

    The table may hold anything; only the uniqueness of (namespace, tenant, seq_no) is
    taken from the schema, so the rows of one chain are a map from seq_no.  The keyed hash
    of framework/runtime/audit/ledger/protocol.go is a parameter. */
module AuditVerify {

  /** The columns that enter the hash. */
  datatype Fields = Fields(
    eventId: string, eventType: string, actorId: string, subjectId: string, tenantId: string,
    sessionId: string, correlationId: string, occurredAt: int, timestamp: int, payload: seq<int>)

  /** trace_id is stored beside them and not hashed. */
  datatype Entry = Entry(fields: Fields, traceId: string, prevHash: string, hash: string)

  type Chain = map<int, Entry>
  type Hasher = (string, Fields) -> string

  datatype Fault = NoFault | Invalid | NotFound
  datatype Report = Report(valid: bool, firstInvalid: int, err: Fault)

  /** The hash the row at `p` has to refer to: that of its predecessor, or "" at genesis. */
  function PrevOf(m: Chain, p: int): string {
    if p > 1 && p - 1 in m then m[p - 1].hash else ""
  }

  /** Present, linked to its predecessor, and rehashing to its stored hash. */
  predicate Intact(h: Hasher, m: Chain, p: int) {
    p in m && m[p].prevHash == PrevOf(m, p) && m[p].hash == h(m[p].prevHash, m[p].fields)
  }

  ghost predicate AllIntact(h: Hasher, m: Chain, a: int, c: int) {
    forall p | a <= p <= c :: Intact(h, m, p)
  }

  ghost predicate NoneIn(m: Chain, a: int, c: int) {
    forall p | a <= p <= c :: p !in m
  }

  /** What Verify has to report about the range [a, c]. */
  ghost predicate IsReport(h: Hasher, m: Chain, a: int, c: int, r: Report) {
    if a < 1 || c < a then r == Report(false, a, Invalid)
    else if a > 1 && a - 1 !in m then r == Report(false, a, NotFound)
    else if AllIntact(h, m, a, c) then r == Report(true, -1, NoFault)
    else
      && !r.valid
      && a <= r.firstInvalid <= c
      && !Intact(h, m, r.firstInvalid) && AllIntact(h, m, a, r.firstInvalid - 1)
      && r.err == if NoneIn(m, r.firstInvalid, c) then NotFound else NoFault
  }

  datatype Scanned = Scanned(seqNo: int, entry: Entry)

  /** The rows with a <= seq_no <= c in ascending order. */
  function RangeRows(m: Chain, a: int, c: int): seq<Scanned>
    decreases c - a
  {
    if a > c then []
    else (if a in m then [Scanned(a, m[a])] else []) + RangeRows(m, a + 1, c)
  }

  /** The first row of a range tells what is missing before it. */
  lemma {:induction false} RangeHead(m: Chain, a: int, c: int)
    ensures RangeRows(m, a, c) == [] <==> NoneIn(m, a, c)
    ensures var rows := RangeRows(m, a, c);
            rows != [] ==>
              && a <= rows[0].seqNo <= c
              && rows[0].seqNo in m && m[rows[0].seqNo] == rows[0].entry
              && NoneIn(m, a, rows[0].seqNo - 1)
              && rows[1..] == RangeRows(m, rows[0].seqNo + 1, c)
    decreases c - a
  {
    if a <= c {
      RangeHead(m, a + 1, c);
      if a !in m {
        assert RangeRows(m, a, c) == RangeRows(m, a + 1, c);
      }
    }
  }

  /** verifyBaselineExec: the hash the first scanned row must refer to. */
  method VerifyBaseline(m: Chain, a: int) returns (found: bool, hash: string)
    requires a >= 1
    ensures found <==> (a == 1 || a - 1 in m)
    ensures found ==> hash == PrevOf(m, a)
  {
    if a == 1 {
      return true, "";
    }
    if a - 1 !in m {
      return false, "";
    }
    return true, m[a - 1].hash;
  }

  /** verifyRangeExec. */
  method VerifyRange(h: Hasher, m: Chain, a: int, c: int, baseline: string) returns (r: Report)
    requires 1 <= a <= c && (a == 1 || a - 1 in m) && baseline == PrevOf(m, a)
    ensures IsReport(h, m, a, c, r)
  {
    var rows := RangeRows(m, a, c);
    var expectedSeq, prevHash := a, baseline;
    var i := 0;
    while i < |rows|
      invariant 0 <= i <= |rows| && a <= expectedSeq <= c + 1
      invariant rows[i..] == RangeRows(m, expectedSeq, c)
      invariant AllIntact(h, m, a, expectedSeq - 1)
      invariant expectedSeq > 1 ==> expectedSeq - 1 in m
      invariant prevHash == PrevOf(m, expectedSeq)
    {
      RangeHead(m, expectedSeq, c);
      var row := rows[i];
      assert row == rows[i..][0] && rows[i + 1..] == rows[i..][1..];
      if row.seqNo != expectedSeq {
        assert !Intact(h, m, expectedSeq);
        return Report(false, expectedSeq, NoFault);
      }
      expectedSeq := expectedSeq + 1;
      if row.entry.prevHash != prevHash || row.entry.hash != h(row.entry.prevHash, row.entry.fields) {
        assert !Intact(h, m, row.seqNo);
        return Report(false, row.seqNo, NoFault);
      }
      prevHash := row.entry.hash;
      i := i + 1;
    }
    RangeHead(m, expectedSeq, c);
    if expectedSeq <= c {
      assert !Intact(h, m, expectedSeq);
      return Report(false, expectedSeq, NotFound);
    }
    r := Report(true, -1, NoFault);
  }

  /** verifyChainExec. */
  method VerifyChain(h: Hasher, m: Chain, a: int, c: int) returns (r: Report)
    ensures IsReport(h, m, a, c, r)
  {
    if a < 1 || c < a {
      return Report(false, a, Invalid);
    }
    var found, baseline := VerifyBaseline(m, a);
    if !found {
      return Report(false, a, NotFound);
    }
    r := VerifyRange(h, m, a, c, baseline);
  }

  /** The report is determined by the table. */
  lemma ReportUnique(h: Hasher, m: Chain, a: int, c: int, r: Report, s: Report)
    requires IsReport(h, m, a, c, r) && IsReport(h, m, a, c, s)
    ensures r == s
  {
    var p, q := r.firstInvalid, s.firstInvalid;
    assert a <= p < q ==> AllIntact(h, m, a, q - 1) ==> Intact(h, m, p);
    assert a <= q < p ==> AllIntact(h, m, a, p - 1) ==> Intact(h, m, q);
  }

  /** Checking a range in two pieces is checking it in one. */
  lemma VerifySplits(h: Hasher, m: Chain, a: int, b: int, c: int, whole: Report, left: Report, right: Report)
    requires a <= b < c
    requires IsReport(h, m, a, c, whole) && IsReport(h, m, a, b, left) && IsReport(h, m, b + 1, c, right)
    ensures whole.valid <==> left.valid && right.valid
    ensures !left.valid ==> whole.firstInvalid == left.firstInvalid
    ensures left.valid ==> whole == right
  {
    if left.valid {
      assert Intact(h, m, b);
      if right.valid {
        assert AllIntact(h, m, a, c);
      } else {
        assert IsReport(h, m, a, c, right) by {
          assert AllIntact(h, m, a, right.firstInvalid - 1);
        }
        ReportUnique(h, m, a, c, whole, right);
      }
    } else if 1 <= a && (a == 1 || a - 1 in m) {
      var p, q := left.firstInvalid, whole.firstInvalid;
      assert !Intact(h, m, p);
      assert a <= p < q ==> AllIntact(h, m, a, q - 1) ==> Intact(h, m, p);
      assert a <= q < p ==> AllIntact(h, m, a, p - 1) ==> Intact(h, m, q);
    }
  }

  // ------------------------------------------------------------------
  // What a verified chain proves
  // ------------------------------------------------------------------

  ghost predicate CollisionFree(h: Hasher) {
    forall p, f, q, g :: h(p, f) == h(q, g) ==> p == q && f == g
  }

  ghost predicate NeverEmpty(h: Hasher) {
    forall p, f :: h(p, f) != ""
  }

  /** The tail hash fixes the whole chain: its length and every hashed column. */
  lemma {:induction false} TailFixesChain(h: Hasher, m: Chain, n: int, m': Chain, n': int)
    requires CollisionFree(h) && NeverEmpty(h)
    requires 1 <= n && AllIntact(h, m, 1, n)
    requires 1 <= n' && AllIntact(h, m', 1, n')
    requires n in m && n' in m' && m[n].hash == m'[n'].hash
    ensures n == n'
    ensures forall p | 1 <= p <= n :: p in m && p in m' && m[p].fields == m'[p].fields && m[p].hash == m'[p].hash
    decreases n
  {
    assert Intact(h, m, n) && Intact(h, m', n');
    assert m[n].prevHash == m'[n'].prevHash && m[n].fields == m'[n'].fields;
    assert n > 1 ==> Intact(h, m, n - 1);
    assert n' > 1 ==> Intact(h, m', n' - 1);
    if n > 1 && n' > 1 {
      TailFixesChain(h, m, n - 1, m', n' - 1);
    }
  }

  /** Cutting off the end of an intact chain is reported at the first missing position. */
  lemma TruncationDetected(h: Hasher, m: Chain, n: int, k: int, r: Report)
    requires 0 <= k < n && AllIntact(h, m, 1, n)
    requires IsReport(h, map p | p in m && p <= k :: m[p], 1, n, r)
    ensures r == Report(false, k + 1, NotFound)
  {
    var cut := map p | p in m && p <= k :: m[p];
    assert !Intact(h, cut, k + 1);
    forall p | 1 <= p <= k ensures Intact(h, cut, p) {
      assert Intact(h, m, p);
      assert p > 1 ==> Intact(h, m, p - 1);
    }
    assert AllIntact(h, cut, 1, k);
    assert NoneIn(cut, k + 1, n);
    assert IsReport(h, cut, 1, n, Report(false, k + 1, NotFound));
    ReportUnique(h, cut, 1, n, r, Report(false, k + 1, NotFound));
  }

  /** Two tables that differ in trace ids at most. */
  ghost predicate SameUpToTrace(m: Chain, m': Chain) {
    m.Keys == m'.Keys && forall p | p in m :: m'[p] == m[p].(traceId := m'[p].traceId)
  }

  /** A change of trace ids is never noticed. */
  lemma TraceIdNotCovered(h: Hasher, m: Chain, m': Chain, a: int, c: int, r: Report)
    requires SameUpToTrace(m, m') && IsReport(h, m, a, c, r)
    ensures IsReport(h, m', a, c, r)
  {
    assert forall p :: Intact(h, m, p) <==> Intact(h, m', p);
    if r.firstInvalid != -1 && 1 <= a <= c {
      assert AllIntact(h, m, a, r.firstInvalid - 1) <==> AllIntact(h, m', a, r.firstInvalid - 1);
    }
    assert AllIntact(h, m, a, c) <==> AllIntact(h, m', a, c);
    assert NoneIn(m, r.firstInvalid, c) <==> NoneIn(m', r.firstInvalid, c);
  }
}
