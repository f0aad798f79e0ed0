/** What one audit says and what makes it ok, said of the documents themselves: whose extract it is, which
    receipts count, which extract next door stands, and every finding. */
module Verdicts {
  import opened Audit
  import opened Bags
  import opened Options
  import opened Reconcile
  import opened Records
  import opened Statements

  // ------------------------------------------------------------------- pinned keys

  predicate SomeKeyReads(keys: seq<Option<Key>>) { exists i :: 0 <= i < |keys| && keys[i].Some? }

  predicate SomeKeyDoesNotRead(keys: seq<Option<Key>>) { keys == [] || exists i :: 0 <= i < |keys| && keys[i].None? }

  predicate KeyPinned(keys: seq<Option<Key>>, k: Key) { exists i :: 0 <= i < |keys| && keys[i] == Some(k) }

  /** The extract is sealed under one of the pinned keys. */
  predicate SealedUnder(x: Extract, keys: seq<Option<Key>>) {
    x.isSealed && x.carries.Some? && KeyPinned(keys, x.carries.value)
  }

  /** A pin with a readable key is stated, and the extract is not sealed under any of its keys. */
  predicate Stranger(x: Extract, trust: Option<RailPin>) {
    trust.Some? && SomeKeyReads(trust.value.keys) && !SealedUnder(x, trust.value.keys)
  }

  lemma KeysMean(keys: seq<Option<Key>>)
    ensures Readable(keys) <==> SomeKeyReads(keys)
    ensures Unreadable(keys) <==> SomeKeyDoesNotRead(keys)
    ensures forall k: Key :: Some(k) in keys <==> KeyPinned(keys, k)
  {
    if SomeKeyReads(keys) {
      var i :| 0 <= i < |keys| && keys[i].Some?;
      assert keys[i] in keys;
    }
    if !Readable(keys) && keys != [] {
      assert keys[0] in keys;
    }
  }

  lemma {:induction false} VerifiesMeans(x: Extract, trust: Option<RailPin>)
    ensures Verifies(x, trust) <==>
      if trust.Some? then SealedUnder(x, trust.value.keys) else x.isSealed && x.carries.Some?
    ensures Rejected(x, trust) <==> Stranger(x, trust)
  {
    if trust.Some? { KeysMean(trust.value.keys); }
  }

  // ------------------------------------------------------------ receipts that count

  /** In the profile, and under a pinned issuer key when keys are pinned. */
  predicate Vouched(issuer: Option<seq<Option<Key>>>, r: Receipt) {
    r.cose && (issuer.Some? ==> r.signedBy.Some? && KeyPinned(issuer.value, r.signedBy.value))
  }

  /** Named by the extract, or dated inside its window; a stranger's extract leaves nothing out. */
  predicate InPlace(input: Input, r: Receipt) {
    input.extract.Some? && !Stranger(input.extract.value, input.trust) ==>
      || (exists i :: 0 <= i < |input.extract.value.rows| && r.ref == Some(input.extract.value.rows[i].ref))
      || input.extract.value.startMs <= r.timestampMs < input.extract.value.endMs
  }

  lemma {:induction false} AttestsMeans(input: Input, r: Receipt)
    ensures Attests(input, r) <==> Vouched(input.issuer, r)
  {
    if input.issuer.Some? { KeysMean(input.issuer.value); }
  }

  lemma {:induction false} InScopeMeans(input: Input, r: Receipt)
    ensures InScope(input, r) <==> InPlace(input, r)
  {
    if input.extract.Some? { VerifiesMeans(input.extract.value, input.trust); }
  }

  /** A receipt is compared with the rows exactly when it is vouched for and in place, and as often as it was
      handed in: one that an unpinned key signed never counts. */
  lemma {:induction false} CountedExactly(input: Input, r: Receipt)
    ensures multiset(InScopeOf(input))[r] ==
      if Vouched(input.issuer, r) && InPlace(input, r) then multiset(input.receipts)[r] else 0
  {
    AttestsMeans(input, r);
    InScopeMeans(input, r);
    KeepCount(input.receipts, (x: Receipt) => Attests(input, x), r);
    KeepCount(Attested(input), (x: Receipt) => InScope(input, x), r);
  }

  // ---------------------------------------------------------------------- next door

  /** The extract is one the verifier takes. */
  predicate Taken(x: Extract, trust: Option<RailPin>) {
    if trust.Some? then SealedUnder(x, trust.value.keys) else x.isSealed && x.carries.Some?
  }

  /** Same account, same rail, and no gap at the edge. */
  predicate Adjoins(x: Extract, n: Extract, edge: Edge) {
    && n.accountId == x.accountId && n.railId == x.railId
    && if edge == Closing then n.startMs == x.endMs else n.endMs == x.startMs
  }

  predicate RowInside(n: Extract, s: Row) { n.startMs <= s.timestampMs < n.endMs }

  /** An extract next door stands when it is taken, adjoins, and is empty or has a row inside its window. */
  predicate Stands(x: Extract, n: Option<Extract>, edge: Edge, trust: Option<RailPin>) {
    && n.Some? && Taken(n.value, trust) && (Stranger(x, trust) || Adjoins(x, n.value, edge))
    && (n.value.rows == [] || exists i :: 0 <= i < |n.value.rows| && RowInside(n.value, n.value.rows[i]))
  }

  lemma {:induction false} GapsMean(x: Extract, n: Option<Extract>, edge: Edge, trust: Option<RailPin>, f: Finding)
    ensures f in GapFindings(x, n, edge, trust) <==>
      && n.Some? && Taken(n.value, trust) && !Stranger(x, trust) && !Adjoins(x, n.value, edge)
      && f == Fail(ExtractScopeMismatch, if edge == Closing then "nextExtract" else "previousExtract")
    ensures GapFindings(x, n, edge, trust) == [] <==>
      !(n.Some? && Taken(n.value, trust) && !Stranger(x, trust) && !Adjoins(x, n.value, edge))
  {
    VerifiesMeans(x, trust);
    if n.Some? { VerifiesMeans(n.value, trust); }
  }

  /** An edge is closed exactly by an extract that stands there, with its rows that lie inside its window:
      none that is not sealed under a pinned key ever closes one. */
  lemma {:induction false} NeighbourExactly(x: Extract, n: Option<Extract>, edge: Edge, trust: Option<RailPin>)
    ensures NeighbourOf(x, n, edge, trust).Some? <==> Stands(x, n, edge, trust)
    ensures var stood := NeighbourOf(x, n, edge, trust);
      stood.Some? ==>
        && (forall s :: s in stood.value.rows <==> s in n.value.rows && RowInside(n.value, s))
        && stood.value.edgeMs == if edge == Closing then n.value.startMs else n.value.endMs
    ensures NeighbourOf(x, n, edge, trust).Some? && trust.Some? ==> SealedUnder(n.value, trust.value.keys)
  {
    if n.Some? {
      VerifiesMeans(n.value, trust);
      GapsMean(x, n, edge, trust, Fail(ExtractScopeMismatch, ""));
      InsideMeans(n.value);
    }
  }

  lemma {:induction false} InsideMeans(n: Extract)
    ensures forall s :: s in InsideRows(n) <==> s in n.rows && RowInside(n, s)
    ensures InsideRows(n) != [] <==> exists i :: 0 <= i < |n.rows| && RowInside(n, n.rows[i])
  {
    if InsideRows(n) != [] {
      var s := InsideRows(n)[0];
      assert s in InsideRows(n);
      var i :| 0 <= i < |n.rows| && n.rows[i] == s;
    }
  }

  // -------------------------------------------------------------- what the documents say

  predicate Same(s: Row, ref: string, amount: string, currency: string, timestampMs: int) {
    s.ref == ref && s.amount == amount && s.currency == currency && s.timestampMs == timestampMs
  }

  /** How often the rows have a payment. */
  function Occurs(rows: seq<Row>, ref: string, amount: string, currency: string, timestampMs: int): nat {
    if rows == [] then 0
    else
      Occurs(rows[..|rows| - 1], ref, amount, currency, timestampMs)
      + if Same(rows[|rows| - 1], ref, amount, currency, timestampMs) then 1 else 0
  }

  /** One of them has a payment that the other has not, or not as often. */
  ghost predicate RowsDiffer(a: seq<Row>, b: seq<Row>) {
    exists ref, amount, currency, timestampMs ::
      Occurs(a, ref, amount, currency, timestampMs) != Occurs(b, ref, amount, currency, timestampMs)
  }

  lemma {:induction false} OccursCounts(rows: seq<Row>, k: RowKey)
    ensures multiset(KeysOf(rows))[k] == Occurs(rows, k.ref, k.amount, k.currency, k.timestampMs)
  {
    if rows != [] {
      var init, s := rows[..|rows| - 1], rows[|rows| - 1];
      OccursCounts(init, k);
      assert KeysOf(rows) == KeysOf(init) + [RowKey(s.ref, s.amount, s.currency, s.timestampMs)];
    }
  }

  lemma {:induction false} SameSettlementsMeans(a: seq<Row>, b: seq<Row>)
    ensures SameSettlements(a, b) <==> !RowsDiffer(a, b)
  {
    var x, y := multiset(KeysOf(a)), multiset(KeysOf(b));
    forall k ensures x[k] == Occurs(a, k.ref, k.amount, k.currency, k.timestampMs)
      && y[k] == Occurs(b, k.ref, k.amount, k.currency, k.timestampMs)
    {
      OccursCounts(a, k);
      OccursCounts(b, k);
    }
    if x == y {
      forall ref, amount, currency, timestampMs
        ensures Occurs(a, ref, amount, currency, timestampMs) == Occurs(b, ref, amount, currency, timestampMs)
      {
        assert x[RowKey(ref, amount, currency, timestampMs)] == y[RowKey(ref, amount, currency, timestampMs)];
      }
    } else {
      var k :| x[k] != y[k];
    }
  }

  /** The extract is not of the stated account, rail or period. */
  predicate ScopeOff(x: Extract, t: RailPin) {
    || (t.accountId.Some? && t.accountId.value != x.accountId) || (t.railId.Some? && t.railId.value != x.railId)
    || (t.startMs.Some? && x.startMs > t.startMs.value) || (t.endMs.Some? && x.endMs < t.endMs.value)
  }

  predicate HasRowOutside(x: Extract, ref: string) {
    exists i :: 0 <= i < |x.rows| && x.rows[i].ref == ref && !RowInside(x, x.rows[i])
  }

  predicate NextDoorFails(x: Extract, n: Option<Extract>, edge: Edge, trust: Option<RailPin>, id: string) {
    && n.Some? && Taken(n.value, trust)
    && if Stranger(x, trust) || Adjoins(x, n.value, edge) then HasRowOutside(n.value, id)
       else id == if edge == Closing then "nextExtract" else "previousExtract"
  }

  /** Two receipts that are vouched for share the ref. */
  ghost predicate TwiceVouched(input: Input, ref: string) {
    exists i: nat, j: nat :: i < j
      && Bears(input.receipts, i, ref) && Vouched(input.issuer, input.receipts[i])
      && Bears(input.receipts, j, ref) && Vouched(input.issuer, input.receipts[j])
  }

  ghost predicate DocumentsFail(input: Input, code: Code, id: string) {
    match code
    case ExtractSettlementMismatch =>
      && id == "extract" && input.extract.Some? && input.settlements.Some?
      && RowsDiffer(input.settlements.value, input.extract.value.rows)
    case TrustKeyUnreadable =>
      || (id == "extract" && input.extract.Some? && input.trust.Some? && SomeKeyDoesNotRead(input.trust.value.keys))
      || (id == "issuer" && input.issuer.Some? && SomeKeyDoesNotRead(input.issuer.value))
    case ExtractKeyMismatch => id == "extract" && input.extract.Some? && Stranger(input.extract.value, input.trust)
    case ExtractScopeMismatch =>
      input.extract.Some? &&
      (|| (id == "extract" && input.trust.Some? && ScopeOff(input.extract.value, input.trust.value))
       || HasRowOutside(input.extract.value, id)
       || NextDoorFails(input.extract.value, input.next, Closing, input.trust, id)
       || NextDoorFails(input.extract.value, input.previous, Opening, input.trust, id))
    case SettledWithoutRef => exists r :: r in input.receipts && r.settled && r.ref.None? && r.nonce == id
    case DuplicateRef => input.issuer.Some? && SomeKeyReads(input.issuer.value) && TwiceVouched(input, id)
    case _ => false
  }

  ghost predicate DocumentsWarn(input: Input, code: Code, id: string) {
    match code
    case UnauthenticatedExtract => id == "extract" && (input.extract.None? || input.trust.None?)
    case UnstatedAuditWindow =>
      && id == "extract" && input.extract.Some? && input.trust.Some?
      && (input.trust.value.startMs.None? || input.trust.value.endMs.None?)
    case UnstatedAuditScope =>
      && id == "extract" && input.extract.Some? && input.trust.Some?
      && (input.trust.value.accountId.None? || input.trust.value.railId.None?)
    case UnauthenticatedIssuer => id == "issuer" && input.issuer.None? && (input.receipts != [] || input.checkpoints)
    case CounterpartyUnbound =>
      && id == "counterparty" && input.extract.Some? && !input.payeeNamed
      && forall s :: s in input.extract.value.rows ==> s.beneficiary.None?
    case DuplicateRef =>
      !(input.issuer.Some? && SomeKeyReads(input.issuer.value)) && TwiceReceipted(input.receipts, id)
    case SettlementComparisonSkipped =>
      id == "extract" && input.extract.Some? && Stranger(input.extract.value, input.trust)
    case _ => false
  }

  /** The finding is among those of the audit. */
  ghost predicate AuditSays(input: Input, f: Finding) {
    || f in input.others
    || (f.needs == Nothing && if f.warn then DocumentsWarn(input, f.code, f.id) else DocumentsFail(input, f.code, f.id))
    || (!(input.extract.Some? && Stranger(input.extract.value, input.trust))
        && Says(InScopeOf(input), RowsOf(input), BoundaryOf(input), f))
  }

  // ---------------------------------------------------------- each part of what is said

  ghost predicate PinSays(x: Extract, t: RailPin, f: Finding) {
    || (f == Fail(TrustKeyUnreadable, "extract") && SomeKeyDoesNotRead(t.keys))
    || (f == Fail(ExtractKeyMismatch, "extract") && Stranger(x, Some(t)))
    || (f == Fail(ExtractScopeMismatch, "extract") && ScopeOff(x, t))
    || (f == Warn(UnstatedAuditWindow, "extract") && (t.startMs.None? || t.endMs.None?))
    || (f == Warn(UnstatedAuditScope, "extract") && (t.accountId.None? || t.railId.None?))
  }

  lemma {:induction false} PinSaysExactly(x: Extract, t: RailPin, f: Finding)
    ensures f in PinFindings(x, t) <==> PinSays(x, t, f)
  {
    KeysMean(t.keys);
    VerifiesMeans(x, Some(t));
    PinFindingsAre(x, t, f);
  }

  lemma ScopeFindingsAre(x: Extract, t: RailPin, f: Finding)
    ensures f in ScopeFindings(x, t) <==> f == Fail(ExtractScopeMismatch, "extract") && ScopeOff(x, t)
  {
  }

  lemma PinFindingsAre(x: Extract, t: RailPin, f: Finding)
    ensures f in PinFindings(x, t) <==>
      || (f == Fail(TrustKeyUnreadable, "extract") && Unreadable(t.keys))
      || (f == Fail(ExtractKeyMismatch, "extract") && Rejected(x, Some(t)))
      || (f == Fail(ExtractScopeMismatch, "extract") && ScopeOff(x, t))
      || (f == Warn(UnstatedAuditWindow, "extract") && (t.startMs.None? || t.endMs.None?))
      || (f == Warn(UnstatedAuditScope, "extract") && (t.accountId.None? || t.railId.None?))
  {
    ScopeFindingsAre(x, t, f);
  }

  ghost predicate StatedSays(input: Input, f: Finding) {
    || (f == Warn(UnauthenticatedExtract, "extract") && (input.extract.None? || input.trust.None?))
    || (f == Fail(ExtractSettlementMismatch, "extract") && input.extract.Some? && input.settlements.Some?
        && RowsDiffer(input.settlements.value, input.extract.value.rows))
    || (input.extract.Some? && input.trust.Some? && PinSays(input.extract.value, input.trust.value, f))
  }

  lemma {:induction false} StatedSaysExactly(input: Input, f: Finding)
    ensures f in StatedFindings(input) <==> StatedSays(input, f)
  {
    if input.extract.Some? {
      if input.settlements.Some? { SameSettlementsMeans(input.settlements.value, input.extract.value.rows); }
      if input.trust.Some? { PinSaysExactly(input.extract.value, input.trust.value, f); }
    }
  }

  lemma {:induction false} IssuerSaysExactly(input: Input, f: Finding)
    ensures f in IssuerFindings(input) <==>
      || (f == Warn(UnauthenticatedIssuer, "issuer") && input.issuer.None?
        && (input.receipts != [] || input.checkpoints))
      || (f == Fail(TrustKeyUnreadable, "issuer") && input.issuer.Some? && SomeKeyDoesNotRead(input.issuer.value))
  {
    if input.issuer.Some? { KeysMean(input.issuer.value); }
  }

  lemma {:induction false} CounterpartySaysExactly(input: Input, f: Finding)
    ensures f in CounterpartyFindings(input) <==>
      && f == Warn(CounterpartyUnbound, "counterparty") && input.extract.Some? && !input.payeeNamed
      && forall s :: s in input.extract.value.rows ==> s.beneficiary.None?
  {
  }

  lemma {:induction false} OutsideSaysExactly(x: Extract, f: Finding)
    ensures f in Gather(x.rows, OutsideOf(x)) <==> f == Fail(ExtractScopeMismatch, f.id) && HasRowOutside(x, f.id)
  {
    GatherMember(x.rows, OutsideOf(x), f);
    if i :| 0 <= i < |x.rows| && f in OutsideOf(x)(x.rows[i]) {
      assert x.rows[i].ref == f.id && !RowInside(x, x.rows[i]);
    }
    if i :| 0 <= i < |x.rows| && x.rows[i].ref == f.id && !RowInside(x, x.rows[i]) {
      assert Fail(ExtractScopeMismatch, f.id) in OutsideOf(x)(x.rows[i]);
    }
  }

  lemma {:induction false} NextDoorSaysExactly(
      x: Extract, n: Option<Extract>, edge: Edge, trust: Option<RailPin>, f: Finding)
    ensures f in NextDoorBag(x, n, edge, trust) <==>
      f == Fail(ExtractScopeMismatch, f.id) && NextDoorFails(x, n, edge, trust, f.id)
  {
    GapsMean(x, n, edge, trust, f);
    assert f in multiset(GapFindings(x, n, edge, trust)) <==> f in GapFindings(x, n, edge, trust);
    if n.Some? {
      VerifiesMeans(n.value, trust);
      OutsideSaysExactly(n.value, f);
    }
  }

  lemma {:induction false} EdgesSayExactly(input: Input, f: Finding)
    ensures f in EdgeBag(input) <==>
      && input.extract.Some? && f == Fail(ExtractScopeMismatch, f.id)
      && (|| HasRowOutside(input.extract.value, f.id)
          || NextDoorFails(input.extract.value, input.next, Closing, input.trust, f.id)
          || NextDoorFails(input.extract.value, input.previous, Opening, input.trust, f.id))
  {
    if input.extract.Some? {
      var x := input.extract.value;
      OutsideSaysExactly(x, f);
      NextDoorSaysExactly(x, input.next, Closing, input.trust, f);
      NextDoorSaysExactly(x, input.previous, Opening, input.trust, f);
    }
  }

  lemma {:induction false} DefectsSayExactly(input: Input, f: Finding)
    ensures f in Gather(input.receipts, DefectOf()) <==>
      f == Fail(SettledWithoutRef, f.id) && exists r ::
        r in input.receipts && r.settled && r.ref.None? && r.nonce == f.id
  {
    GatherMember(input.receipts, DefectOf(), f);
    if i :| 0 <= i < |input.receipts| && f in DefectOf()(input.receipts[i]) {
      assert input.receipts[i] in input.receipts && input.receipts[i].nonce == f.id;
    }
    if r :| r in input.receipts && r.settled && r.ref.None? && r.nonce == f.id {
      var i :| 0 <= i < |input.receipts| && input.receipts[i] == r;
      assert Fail(SettledWithoutRef, f.id) in DefectOf()(input.receipts[i]);
    }
  }

  // ------------------------------------------------------------------- clashing receipts

  ghost predicate TwiceKept(s: seq<Receipt>, p: Receipt -> bool, ref: string) {
    exists i: nat, j: nat :: i < j && Bears(s, i, ref) && p(s[i]) && Bears(s, j, ref) && p(s[j])
  }

  ghost predicate OnceKept(s: seq<Receipt>, p: Receipt -> bool, ref: string) {
    exists i: nat :: Bears(s, i, ref) && p(s[i])
  }

  lemma {:induction false} KeptOnce(s: seq<Receipt>, p: Receipt -> bool, ref: string)
    ensures Receipted(Keep(s, p), ref) <==> OnceKept(s, p, ref)
  {
    if i: nat :| Bears(s, i, ref) && p(s[i]) {
      assert s[i] in Keep(s, p);
      var k :| 0 <= k < |Keep(s, p)| && Keep(s, p)[k] == s[i];
      assert Bears(Keep(s, p), k, ref);
    }
    if k: nat :| Bears(Keep(s, p), k, ref) {
      assert Keep(s, p)[k] in Keep(s, p);
      var i :| 0 <= i < |s| && s[i] == Keep(s, p)[k];
      assert Bears(s, i, ref);
    }
  }

  lemma {:induction false} KeptOneMore(s: seq<Receipt>, p: Receipt -> bool, r: Receipt, ref: string)
    ensures TwiceKept(s + [r], p, ref) <==> TwiceKept(s, p, ref) || (OnceKept(s, p, ref) && HasRef(r, ref) && p(r))
  {
    var all, n := s + [r], |s|;
    forall i: nat | i < n ensures Bears(all, i, ref) <==> Bears(s, i, ref) { assert all[i] == s[i]; }
    assert Bears(all, n, ref) <==> HasRef(r, ref);
  }

  lemma {:induction false} KeptTwice(s: seq<Receipt>, p: Receipt -> bool, ref: string)
    ensures TwiceReceipted(Keep(s, p), ref) <==> TwiceKept(s, p, ref)
  {
    if s != [] {
      var n := |s| - 1;
      var init, r := s[..n], s[n];
      KeptTwice(init, p, ref);
      KeptOnce(init, p, ref);
      KeptOneMore(init, p, r, ref);
      assert s == init + [r];
      if p(r) {
        ReceiptedOneMore(Keep(init, p), r, ref);
      } else {
        assert Keep(s, p) == Keep(init, p);
      }
    }
  }

  lemma {:induction false} ClashesSayExactly(input: Input, f: Finding)
    ensures f in ClashBag(input) <==>
      if input.issuer.Some? && SomeKeyReads(input.issuer.value) then
        f == Fail(DuplicateRef, f.id) && TwiceVouched(input, f.id)
      else f == Warn(DuplicateRef, f.id) && TwiceReceipted(input.receipts, f.id)
  {
    if input.issuer.Some? { KeysMean(input.issuer.value); }
    if PinUsable(input) {
      var refs := RepeatedIn(Gather(Attested(input), RefOf()));
      SetGathers(refs, DuplicateOf(), f);
      forall ref ensures ref in refs <==> TwiceVouched(input, ref) { TwiceVouchedMeans(input, ref); }
    } else {
      var refs := RepeatedIn(Gather(input.receipts, RefOf()));
      SetGathers(refs, DuplicateWarningOf(), f);
      forall ref ensures ref in refs <==> TwiceReceipted(input.receipts, ref) { ReceiptRefCount(input.receipts, ref); }
    }
  }

  lemma {:induction false} TwiceVouchedMeans(input: Input, ref: string)
    ensures Gather(Attested(input), RefOf())[ref] > 1 <==> TwiceVouched(input, ref)
  {
    var p := (r: Receipt) => Attests(input, r);
    ReceiptRefCount(Attested(input), ref);
    KeptTwice(input.receipts, p, ref);
    forall r ensures p(r) <==> Vouched(input.issuer, r) { AttestsMeans(input, r); }
  }

  // -------------------------------------------------------------------------- all of it

  /** What is said of the documents around the records. */
  ghost predicate AroundSays(input: Input, f: Finding) {
    || StatedSays(input, f)
    || (f == Warn(UnauthenticatedIssuer, "issuer") && input.issuer.None? && (input.receipts != [] || input.checkpoints))
    || (f == Fail(TrustKeyUnreadable, "issuer") && input.issuer.Some? && SomeKeyDoesNotRead(input.issuer.value))
    || (input.extract.Some? && f == Fail(ExtractScopeMismatch, f.id)
        && (|| HasRowOutside(input.extract.value, f.id)
            || NextDoorFails(input.extract.value, input.next, Closing, input.trust, f.id)
            || NextDoorFails(input.extract.value, input.previous, Opening, input.trust, f.id)))
    || (f == Warn(CounterpartyUnbound, "counterparty") && input.extract.Some? && !input.payeeNamed
        && forall s :: s in input.extract.value.rows ==> s.beneficiary.None?)
  }

  /** What is said of receipts before they are compared. */
  ghost predicate BeforehandSays(input: Input, f: Finding) {
    || (f == Fail(SettledWithoutRef, f.id)
        && exists r :: r in input.receipts && r.settled && r.ref.None? && r.nonce == f.id)
    || (if input.issuer.Some? && SomeKeyReads(input.issuer.value) then
          f == Fail(DuplicateRef, f.id) && TwiceVouched(input, f.id)
        else f == Warn(DuplicateRef, f.id) && TwiceReceipted(input.receipts, f.id))
  }

  /** What is said when they are. */
  ghost predicate ComparisonSays(input: Input, f: Finding) {
    if input.extract.Some? && Stranger(input.extract.value, input.trust) then
      f == Warn(SettlementComparisonSkipped, "extract")
    else Says(InScopeOf(input), RowsOf(input), BoundaryOf(input), f)
  }

  lemma {:induction false} EvidenceSaysExactly(input: Input, f: Finding)
    ensures f in EvidenceBag(input) <==> f in input.others || AroundSays(input, f)
  {
    StatedSaysExactly(input, f);
    IssuerSaysExactly(input, f);
    EdgesSayExactly(input, f);
    CounterpartySaysExactly(input, f);
  }

  lemma {:induction false} RecordsSayExactly(input: Input, f: Finding)
    ensures f in RecordsBag(input) <==> BeforehandSays(input, f) || ComparisonSays(input, f)
  {
    DefectsSayExactly(input, f);
    ClashesSayExactly(input, f);
    if input.extract.Some? { VerifiesMeans(input.extract.value, input.trust); }
    WindowSaysExactly(InScopeOf(input), RowsOf(input), BoundaryOf(input), f);
  }

  lemma {:induction false} HardParts(input: Input, f: Finding)
    requires !f.warn
    ensures AroundSays(input, f) || BeforehandSays(input, f) <==>
      f.needs == Nothing && DocumentsFail(input, f.code, f.id)
  {
  }

  lemma {:induction false} AroundWarns(input: Input, f: Finding)
    requires f.warn
    ensures AroundSays(input, f) <==>
      f.needs == Nothing && f.code !in {DuplicateRef, SettlementComparisonSkipped} && DocumentsWarn(input, f.code, f.id)
  {
  }

  lemma {:induction false} BeforehandWarns(input: Input, f: Finding)
    requires f.warn
    ensures BeforehandSays(input, f) <==>
      f.needs == Nothing && f.code == DuplicateRef && DocumentsWarn(input, f.code, f.id)
  {
  }

  lemma {:induction false} WarningParts(input: Input, f: Finding)
    requires f.warn
    ensures f.needs == Nothing && DocumentsWarn(input, f.code, f.id) <==>
      || AroundSays(input, f) || BeforehandSays(input, f)
      || (input.extract.Some? && Stranger(input.extract.value, input.trust)
          && f == Warn(SettlementComparisonSkipped, "extract"))
  {
    AroundWarns(input, f);
    BeforehandWarns(input, f);
  }

  lemma {:induction false} PartsAreAll(input: Input, f: Finding)
    ensures f in input.others || AroundSays(input, f) || BeforehandSays(input, f) || ComparisonSays(input, f) <==>
      AuditSays(input, f)
  {
    if f.warn { WarningParts(input, f); } else { HardParts(input, f); }
  }

  /** An audit says exactly what the reference says. */
  lemma {:induction false} AuditSaysExactly(input: Input, f: Finding)
    ensures f in Said(input) <==> AuditSays(input, f)
  {
    EvidenceSaysExactly(input, f);
    RecordsSayExactly(input, f);
    PartsAreAll(input, f);
  }

  /** So a report has exactly the hard findings and the warnings the reference names, and is ok exactly when
      the documents and the comparison give none of the first. */
  lemma {:induction false} ReportExactly(d: Detail, input: Input)
    requires Audits(d, input)
    ensures forall f :: f in d.findings <==> !f.warn && AuditSays(input, f)
    ensures forall f :: f in d.warnings <==> f.warn && AuditSays(input, f)
    ensures d.ok <==> forall f :: AuditSays(input, f) ==> f.warn
  {
    forall f
      ensures f in d.findings <==> !f.warn && AuditSays(input, f)
      ensures f in d.warnings <==> f.warn && AuditSays(input, f)
    {
      AuditSaysExactly(input, f);
      ByGrade(d, Said(input), f);
    }
    if !d.ok {
      assert d.findings[0] in d.findings;
    }
  }

  lemma {:induction false} ByGrade(d: Detail, said: multiset<Finding>, f: Finding)
    requires multiset(d.findings) + multiset(d.warnings) == said && Graded(d)
    ensures f in d.findings <==> !f.warn && f in said
    ensures f in d.warnings <==> f.warn && f in said
  {
    assert f in multiset(d.findings) + multiset(d.warnings) <==> f in said;
  }

  /** Codes that leave it open whether the evidence is what it seems. */
  predicate LeavesDoubt(code: Code) {
    || code == ExtractKeyMismatch || code == TrustKeyUnreadable || code == ExtractScopeMismatch
    || code == ExtractSettlementMismatch || code == IssuerKeyMismatch || code == ManifestKeyMismatch
  }

  /** A report is unconditional exactly when every warning is that no payee is bound and no hard finding leaves
      a doubt. */
  lemma {:induction false} UnconditionalExactly(d: Detail, input: Input)
    requires Audits(d, input)
    ensures d.unconditional <==>
      forall f :: AuditSays(input, f) ==> if f.warn then f.code == CounterpartyUnbound else !LeavesDoubt(f.code)
  {
    ReportExactly(d, input);
    GuaranteeMeans(d.warnings, d.findings);
    forall f | f in d.findings || f in d.warnings ensures AuditSays(input, f) { }
  }

  lemma GuaranteeMeans(warnings: seq<Finding>, hard: seq<Finding>)
    ensures Guarantee(warnings, hard) <==>
      (forall w :: w in warnings ==> w.code == CounterpartyUnbound) && forall f :: f in hard ==> !LeavesDoubt(f.code)
  {
  }

  lemma {:induction false} CarriedListed(s: seq<EdgeRef>, receipts: seq<Receipt>, rows: seq<Row>, b: Option<Boundary>)
    requires multiset(s) == Gather(receipts, CarriedOf(CtxOf(receipts, rows, b)))
    ensures forall ref, edge :: EdgeRef(ref, edge) in s <==> exists r :: CarriedAt(receipts, rows, b, r, ref, edge)
  {
    forall ref, edge ensures EdgeRef(ref, edge) in s <==> exists r :: CarriedAt(receipts, rows, b, r, ref, edge) {
      assert EdgeRef(ref, edge) in s <==> EdgeRef(ref, edge) in multiset(s);
      CarriedExactly(receipts, rows, b, ref, edge);
    }
  }

  lemma {:induction false} DeferredListed(
      s: seq<DeferredRow>, receipts: seq<Receipt>, rows: seq<Row>, b: Option<Boundary>)
    requires multiset(s) == Gather(rows, DeferredOf(CtxOf(receipts, rows, b)))
    ensures forall d :: d in s <==> exists row :: WaitsAt(receipts, rows, b, row, d)
  {
    forall d ensures d in s <==> exists row :: WaitsAt(receipts, rows, b, row, d) {
      assert d in s <==> d in multiset(s);
      DeferredExactly(receipts, rows, b, d);
    }
  }

  lemma {:induction false} MatchedListed(s: seq<string>, receipts: seq<Receipt>, rows: seq<Row>, b: Option<Boundary>)
    requires multiset(s) == Gather(rows, MatchedOf(CtxOf(receipts, rows, b)))
    ensures forall ref :: ref in s <==> Single(receipts, rows, ref) && Receipted(receipts, ref) && Rowed(rows, ref)
  {
    forall ref ensures ref in s <==> Single(receipts, rows, ref) && Receipted(receipts, ref) && Rowed(rows, ref) {
      assert ref in s <==> ref in multiset(s);
      MatchedExactly(receipts, rows, b, ref);
    }
  }

  lemma {:induction false} ListsAreGathered(d: Detail, input: Input)
    requires Audits(d, input) && !(input.extract.Some? && Stranger(input.extract.value, input.trust))
    ensures var receipts, rows := InScopeOf(input), RowsOf(input);
      var c := CtxOf(receipts, rows, BoundaryOf(input));
      && multiset(d.carried) == Gather(receipts, CarriedOf(c))
      && multiset(d.deferredRows) == Gather(rows, DeferredOf(c)) && multiset(d.matched) == Gather(rows, MatchedOf(c))
  {
    if input.extract.Some? { VerifiesMeans(input.extract.value, input.trust); }
  }

  /** And what a report hands on is what the reference hands on. */
  lemma {:induction false} HandedOnExactly(d: Detail, input: Input)
    requires Audits(d, input) && !(input.extract.Some? && Stranger(input.extract.value, input.trust))
    ensures var receipts, rows, b := InScopeOf(input), RowsOf(input), BoundaryOf(input);
      && (forall ref, edge :: EdgeRef(ref, edge) in d.carried <==>
        exists r :: CarriedAt(receipts, rows, b, r, ref, edge))
      && (forall row :: row in d.deferredRows <==> exists s :: WaitsAt(receipts, rows, b, s, row))
      && forall ref :: ref in d.matched <==>
           Single(receipts, rows, ref) && Receipted(receipts, ref) && Rowed(rows, ref)
  {
    ListsAreGathered(d, input);
    CarriedListed(d.carried, InScopeOf(input), RowsOf(input), BoundaryOf(input));
    DeferredListed(d.deferredRows, InScopeOf(input), RowsOf(input), BoundaryOf(input));
    MatchedListed(d.matched, InScopeOf(input), RowsOf(input), BoundaryOf(input));
  }

  // --------------------------------------------------------------- what follows for one

  function Allowance(x: Extract): int { if x.clockSkewMs.Some? then x.clockSkewMs.value else 300000 }

  /** The edges of a window: its extract's own, with the allowance it declares or five minutes, and closed
      by the extracts that stand there. */
  lemma {:induction false} BoundaryExactly(input: Input)
    requires input.extract.Some?
    ensures BoundaryOf(input).Some?
    ensures var x, b := input.extract.value, BoundaryOf(input).value;
      && b.startMs == x.startMs && b.endMs == x.endMs && b.skewMs == Allowance(x)
      && (b.prev.Some? <==> Stands(x, input.previous, Opening, input.trust))
      && (b.next.Some? <==> Stands(x, input.next, Closing, input.trust))
  {
    NeighbourExactly(input.extract.value, input.previous, Opening, input.trust);
    NeighbourExactly(input.extract.value, input.next, Closing, input.trust);
  }

  /** A row of the extract behind the end pays the receipt, within the allowance. */
  predicate PaidAfter(n: Extract, r: Receipt, allowance: int) {
    exists s :: s in n.rows && RowInside(n, s) && Pays(s, r) && s.timestampMs < n.startMs + allowance
  }

  predicate PaidBefore(n: Extract, r: Receipt, allowance: int) {
    exists s :: s in n.rows && RowInside(n, s) && Pays(s, r) && s.timestampMs >= n.endMs - allowance
  }

  lemma {:induction false} NamedAfterMeans(input: Input, r: Receipt)
    requires input.extract.Some? && Stands(input.extract.value, input.next, Closing, input.trust)
    ensures var b := BoundaryOf(input).value;
      b.next.Some? && (NamedAfter(b.next.value, r, b.skewMs) <==> PaidAfter(input.next.value, r, b.skewMs))
  {
    var n := input.next.value;
    BoundaryExactly(input);
    NeighbourExactly(input.extract.value, input.next, Closing, input.trust);
    var b := BoundaryOf(input).value;
    var rows := b.next.value.rows;
    forall s | s in n.rows && RowInside(n, s) && Pays(s, r) && s.timestampMs < n.startMs + b.skewMs
      ensures NamedAfter(b.next.value, r, b.skewMs)
    {
      assert s in rows;
      var i :| 0 <= i < |rows| && rows[i] == s;
    }
    if i :| 0 <= i < |rows| && Pays(rows[i], r) && rows[i].timestampMs < n.startMs + b.skewMs {
      assert rows[i] in rows;
    }
  }

  lemma {:induction false} NamedBeforeMeans(input: Input, r: Receipt)
    requires input.extract.Some? && Stands(input.extract.value, input.previous, Opening, input.trust)
    ensures var b := BoundaryOf(input).value;
      b.prev.Some? && (NamedBefore(b.prev.value, r, b.skewMs) <==> PaidBefore(input.previous.value, r, b.skewMs))
  {
    var n := input.previous.value;
    BoundaryExactly(input);
    NeighbourExactly(input.extract.value, input.previous, Opening, input.trust);
    var b := BoundaryOf(input).value;
    var rows := b.prev.value.rows;
    forall s | s in n.rows && RowInside(n, s) && Pays(s, r) && s.timestampMs >= n.endMs - b.skewMs
      ensures NamedBefore(b.prev.value, r, b.skewMs)
    {
      assert s in rows;
      var i :| 0 <= i < |rows| && rows[i] == s;
    }
    if i :| 0 <= i < |rows| && Pays(rows[i], r) && rows[i].timestampMs >= n.endMs - b.skewMs {
      assert rows[i] in rows;
    }
  }

  /** A settled receipt that counts, alone on its ref, which no row of the window names. */
  ghost predicate Alone(input: Input, r: Receipt) {
    && input.extract.Some? && !Stranger(input.extract.value, input.trust)
    && r in InScopeOf(input) && r.settled && r.ref.Some? && !TwiceReceipted(InScopeOf(input), r.ref.value)
    && forall s :: s in input.extract.value.rows ==> s.ref != r.ref.value
  }

  predicate ByTheStart(x: Extract, r: Receipt) { r.timestampMs < x.startMs + Allowance(x) }

  predicate ByTheEnd(x: Extract, r: Receipt) { r.timestampMs >= x.endMs - Allowance(x) }

  /** It is answered for next door: near an edge closed by an extract with a row that pays it. */
  predicate AnsweredNextDoor(input: Input, r: Receipt)
    requires input.extract.Some?
  {
    var x := input.extract.value;
    || (ByTheStart(x, r) && Stands(x, input.previous, Opening, input.trust)
        && PaidBefore(input.previous.value, r, Allowance(x)))
    || (ByTheEnd(x, r) && Stands(x, input.next, Closing, input.trust) && PaidAfter(input.next.value, r, Allowance(x)))
  }

  /** It may wait: near an edge, and no edge that it is near is closed. */
  predicate MayWait(input: Input, r: Receipt)
    requires input.extract.Some?
  {
    var x := input.extract.value;
    && (ByTheStart(x, r) || ByTheEnd(x, r))
    && (ByTheStart(x, r) ==> !Stands(x, input.previous, Opening, input.trust))
    && (ByTheEnd(x, r) ==> !Stands(x, input.next, Closing, input.trust))
  }

  lemma {:induction false} AloneMeans(input: Input, r: Receipt)
    requires Alone(input, r)
    ensures var b := BoundaryOf(input);
      && (Unanswered(InScopeOf(input), RowsOf(input), b, r) <==> !AnsweredNextDoor(input, r))
      && (Waits(b, r) <==> MayWait(input, r))
      && (NearEnd(b, r.timestampMs) <==> ByTheEnd(input.extract.value, r))
  {
    var x := input.extract.value;
    BoundaryExactly(input);
    if Stands(x, input.previous, Opening, input.trust) { NamedBeforeMeans(input, r); }
    if Stands(x, input.next, Closing, input.trust) { NamedAfterMeans(input, r); }
    forall i: nat ensures !RowBears(RowsOf(input), i, r.ref.value) {
      if i < |x.rows| { assert x.rows[i] in x.rows; }
    }
  }

  lemma {:induction false} SaidIsReported(d: Detail, input: Input, f: Finding)
    requires Audits(d, input) && AuditSays(input, f)
    ensures if f.warn then f in d.warnings else f in d.findings && !d.ok
  {
    ReportExactly(d, input);
  }

  lemma {:induction false} ComparisonIsReported(d: Detail, input: Input, f: Finding)
    requires Audits(d, input) && !(input.extract.Some? && Stranger(input.extract.value, input.trust))
    requires Says(InScopeOf(input), RowsOf(input), BoundaryOf(input), f)
    ensures if f.warn then f in d.warnings else f in d.findings && !d.ok
  {
    SaidIsReported(d, input, f);
  }

  /** A receipt alone on its ref that nobody next door answers for is charged unless it may wait, even right
      at an edge: an extract that stands there and does not name it settles the matter. */
  lemma {:induction false} UnansweredIsCharged(d: Detail, input: Input, r: Receipt)
    requires Audits(d, input) && Alone(input, r) && !AnsweredNextDoor(input, r) && !MayWait(input, r)
    ensures Fail(ReceiptWithoutSettlement, r.nonce) in d.findings && !d.ok
  {
    AloneMeans(input, r);
    ComparisonIsReported(d, input, Fail(ReceiptWithoutSettlement, r.nonce));
  }

  /** One that may wait is not charged but deferred, and asks for the extract behind the end if it is near
      it, else for the one before the start. */
  lemma {:induction false} WaitingIsDeferred(d: Detail, input: Input, r: Receipt)
    requires Audits(d, input) && Alone(input, r) && !AnsweredNextDoor(input, r) && MayWait(input, r)
    ensures var needs := if ByTheEnd(input.extract.value, r) then NextExtract else PreviousExtract;
      Finding(BoundaryDeferred, r.nonce, true, needs) in d.warnings
  {
    var needs := if ByTheEnd(input.extract.value, r) then NextExtract else PreviousExtract;
    AloneMeans(input, r);
    ComparisonIsReported(d, input, Finding(BoundaryDeferred, r.nonce, true, needs));
  }

  lemma {:induction false} DeferralIsSaid(d: Detail, input: Input, f: Finding)
    requires Audits(d, input) && f in d.warnings && f !in input.others && f.needs != Nothing
    ensures !(input.extract.Some? && Stranger(input.extract.value, input.trust))
    ensures Says(InScopeOf(input), RowsOf(input), BoundaryOf(input), f)
  {
    ReportExactly(d, input);
    assert AuditSays(input, f);
  }

  /** A receipt that the deferral may be about: alone, unanswered, and near no closed edge. */
  ghost predicate DeferredFor(input: Input, r: Receipt, id: string, needs: Needs) {
    && Alone(input, r) && r.nonce == id && !AnsweredNextDoor(input, r) && MayWait(input, r)
    && (needs == NextExtract <==> ByTheEnd(input.extract.value, r))
  }

  lemma {:induction false} WaitsFor(input: Input, r: Receipt, needs: Needs)
    requires !(input.extract.Some? && Stranger(input.extract.value, input.trust))
    requires Unanswered(InScopeOf(input), RowsOf(input), BoundaryOf(input), r) && Waits(BoundaryOf(input), r)
    requires needs == NextExtract <==> NearEnd(BoundaryOf(input), r.timestampMs)
    ensures DeferredFor(input, r, r.nonce, needs)
  {
    forall s | s in RowsOf(input) ensures s.ref != r.ref.value {
      var i :| 0 <= i < |RowsOf(input)| && RowsOf(input)[i] == s;
      assert RowBears(RowsOf(input), i, s.ref);
    }
    AloneMeans(input, r);
  }

  /** And no receipt is deferred but such a one. */
  lemma {:induction false} DeferredMayWait(d: Detail, input: Input, id: string, needs: Needs) returns (r: Receipt)
    requires Audits(d, input) && needs in {NextExtract, PreviousExtract}
    requires Finding(BoundaryDeferred, id, true, needs) in d.warnings
    requires Finding(BoundaryDeferred, id, true, needs) !in input.others
    ensures DeferredFor(input, r, id, needs)
  {
    DeferralIsSaid(d, input, Finding(BoundaryDeferred, id, true, needs));
    r := DeferredReceipt(InScopeOf(input), RowsOf(input), BoundaryOf(input), id, needs);
    WaitsFor(input, r, needs);
  }

  lemma DeferredReceipt(receipts: seq<Receipt>, rows: seq<Row>, b: Option<Boundary>, id: string, needs: Needs)
    returns (r: Receipt)
    requires Defers(receipts, rows, b, id, needs) && needs in {NextExtract, PreviousExtract}
    ensures Unanswered(receipts, rows, b, r) && r.nonce == id && Waits(b, r)
    ensures needs == NextExtract <==> NearEnd(b, r.timestampMs)
  {
    if needs == NextExtract {
      r :| Unanswered(receipts, rows, b, r) && r.nonce == id && Waits(b, r) && NearEnd(b, r.timestampMs);
    } else {
      r :| Unanswered(receipts, rows, b, r) && r.nonce == id && Waits(b, r) && !NearEnd(b, r.timestampMs);
    }
  }

  lemma {:induction false} StrangerIsSaid(input: Input)
    requires input.extract.Some? && Stranger(input.extract.value, input.trust)
    ensures AuditSays(input, Fail(ExtractKeyMismatch, "extract"))
    ensures AuditSays(input, Warn(SettlementComparisonSkipped, "extract"))
  {
  }

  lemma {:induction false} StrangerHandsOnNothing(
      input: Input, carried: seq<EdgeRef>, deferredRows: seq<DeferredRow>, matched: seq<string>)
    requires input.extract.Some? && Stranger(input.extract.value, input.trust)
    requires Classes(carried, deferredRows, matched, input)
    ensures matched == [] && carried == [] && deferredRows == []
  {
    VerifiesMeans(input.extract.value, input.trust);
  }

  /** An extract that is not sealed under a pinned key is said to be none of the verifier's, the report is not
      ok, and nothing in it is matched, carried or deferred. */
  lemma {:induction false} StrangerIsRefused(d: Detail, input: Input)
    requires Audits(d, input) && input.extract.Some? && Stranger(input.extract.value, input.trust)
    ensures Fail(ExtractKeyMismatch, "extract") in d.findings && !d.ok
    ensures Warn(SettlementComparisonSkipped, "extract") in d.warnings
    ensures d.matched == [] && d.carried == [] && d.deferredRows == []
  {
    StrangerIsSaid(input);
    StrangerHandsOnNothing(input, d.carried, d.deferredRows, d.matched);
    SaidIsReported(d, input, Fail(ExtractKeyMismatch, "extract"));
    SaidIsReported(d, input, Warn(SettlementComparisonSkipped, "extract"));
  }
}
