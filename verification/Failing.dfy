/** Two runs that end in a state whose audit fails: a checkpoint that outgrows the decoder, and a
    payment left half recorded by evidence dated at the last safe integer. */
module FailingRuns {
  import opened Journal
  import opened Published
  import opened Options
  import opened Records
  import opened SelfAudit
  import opened SessionSafety
  import opened SessionSteps
  import opened Sessions
  import opened SharedState
  import A = Audit
  import Cbor
  import Claims
  import D = CborDecoder
  import Octets
  import P = Policies
  import Sealing
  import Signing
  import Utf8

  const KEY: Key := 1
  const RAIL_KEY: Key := 2

  /** No list restricts anything: any currency is taken. */
  const POLICY := P.Policy(10, 30, 3, 3600000, None, None, None)

  const FIRST := "payment-number-one"
  const SECOND := "payment-number-two"

  function Pay(nonce: string, currency: string): Args { Args(nonce, "1", currency, "payee-1", None) }

  // ------------------------------------------------------------------ from seat to world

  function Alone(v: Seat): World { World(v.disk, map[0 := Member(v.mem, v.lastSeen)], v.log) }

  const OPENED: Seat := Seat(None, EmptyImage(KEY), None, [])

  lemma {:induction false} OpensEmpty(h: ReceiptHash)
    ensures After([Open(0, KEY, 1000, true)], h) == Alone(OPENED)
  {
    var actions := [Open(0, KEY, 1000, true)];
    assert actions[..0] == [];
    assert After(actions[..0], h) == BEGINNING;
    assert Intents([]) == [];
    assert RecoverRows(EmptyImage(KEY), [], 1000) == EmptyImage(KEY);
    assert BEGINNING.members[0 := Member(EmptyImage(KEY), None)] == map[0 := Member(EmptyImage(KEY), None)];
  }

  lemma {:induction false} OperatesAlone(actions: seq<Action>, a: Action, v: Seat, h: ReceiptHash)
    requires After(actions, h) == Alone(v) && a.id == 0 && !a.Open? && !a.Reload? && !a.Crash?
    ensures After(actions + [a], h) == Alone(Operate(v, h, a))
  {
    assert (actions + [a])[..|actions|] == actions;
    var w := Alone(v);
    assert SeatOf(w, w.members[0]) == v;
    var v' := Operate(v, h, a);
    assert w.members[0 := Member(v'.mem, v'.lastSeen)] == map[0 := Member(v'.mem, v'.lastSeen)];
  }

  lemma {:induction false} OneIsReadable()
    ensures IsValidAmountText("1") && ParseAmount("1") == 1 && PrintAmount(1) == "1" && Value("1") == 1
  {
    assert "1"[..0] == "";
    assert ParseAmount(""[..]) == 0;
    ParsePrints("1");
  }

  // ------------------------------------------------- a checkpoint outgrows the decoder

  function Repeated(c: char, n: nat): (s: string)
    ensures |s| == n && forall i :: 0 <= i < n ==> s[i] == c
  {
    seq(n, i => c)
  }

  const ALPHAS: string := Repeated('a', 9000)
  const BETAS: string := Repeated('b', 9000)

  lemma {:induction false} AsciiLength(s: string)
    requires forall i :: 0 <= i < |s| ==> s[i] < 128 as char
    ensures |Utf8.EncodeText(s)| == |s|
  {
    if s != "" {
      AsciiLength(s[1..]);
    }
  }

  lemma {:induction false} LongButSignable()
    ensures |Utf8.EncodeText(ALPHAS)| == 9000 && |Utf8.EncodeText(BETAS)| == 9000 && ALPHAS != BETAS
  {
    AsciiLength(ALPHAS);
    AsciiLength(BETAS);
    assert ALPHAS[0] != BETAS[0];
  }

  /** Texts of ordinary length, and a currency of up to 9000 octets. */
  predicate Brief(r: Receipt) {
    && Cbor.SafeInt(r.timestampMs) && r.settled
    && |r.payee| <= 32 && |r.amount| <= 32 && |r.nonce| <= 32 && |Utf8.EncodeText(r.currency)| <= 9000
    && (r.ref.Some? ==> |r.ref.value| <= 64) && (r.prevHash.Some? ==> |r.prevHash.value| <= 64)
  }

  /** Hashes are 64 digits, and such a receipt has one. */
  ghost predicate Ordinary(h: ReceiptHash) {
    (forall r :: h(r).Some? ==> |h(r).value| == 64) && (forall r :: Brief(r) ==> h(r).Some?)
  }

  lemma {:induction false} SumAtMost(c: Claims.ReceiptClaims, n: nat)
    requires n <= 12 && forall i: nat :: i < 12 && i != 3 ==> Sealing.ReceiptPart(c, i) <= 409
    requires Sealing.ReceiptPart(c, 3) <= 9009
    ensures Sealing.SumParts(c, n) <= 409 * n + if n > 3 then 8600 else 0
  {
    if n > 0 {
      SumAtMost(c, n - 1);
    }
  }

  /** The program's own receipt hash is such a one, for any payer of ordinary length. */
  lemma {:induction false} ReceiptHashIsOrdinary(
      sha: Octets.Octets -> Hash, signer: Signing.Signer, payer: string, policyHash: string)
    requires signer.Valid() && |payer| <= 100 && |policyHash| <= 64 && forall o :: |sha(o)| == 64
    ensures Ordinary(HashOf(sha, signer, payer, policyHash))
  {
    var h := HashOf(sha, signer, payer, policyHash);
    forall r | h(r).Some? ensures |h(r).value| == 64 {
      assert h(r).value == sha(Signing.SignReceipt(ClaimsOf(r, payer, policyHash), signer).value);
    }
    forall r | Brief(r) ensures h(r).Some? {
      var c := ClaimsOf(r, payer, policyHash);
      SignedIsSignable(r, sha, signer, payer, policyHash);
      forall i: nat | i < 12 ensures Sealing.ReceiptPart(c, i) <= if i == 3 then 9009 else 409 {
        BriefPart(r, payer, policyHash, i);
      }
      SumAtMost(c, 12);
    }
  }

  lemma {:induction false} BriefPart(r: Receipt, payer: string, policyHash: string, i: nat)
    requires Brief(r) && |payer| <= 100 && |policyHash| <= 64 && i < 12
    ensures Sealing.ReceiptPart(ClaimsOf(r, payer, policyHash), i) <= if i == 3 then 9009 else 409
  {
  }

  function Paying(nonce: string, currency: string, nowMs: int): Action {
    Spend(0, POLICY, Pay(nonce, currency), nowMs, true)
  }

  predicate AddsOne(was: seq<Receipt>, now: seq<Receipt>, currency: string) {
    |now| == |was| + 1 && was <= now && now[|was|].currency == currency && now[|was|].settled
  }

  lemma {:induction false} LastHashIsShort(v: Seat, h: ReceiptHash)
    requires Ordinary(h)
    ensures LastHash(v.mem.receipts, h).Some? ==> |LastHash(v.mem.receipts, h).value| <= 64
  {
  }

  lemma {:induction false} SpendIsSaved(v: Seat, h: ReceiptHash, args: Args, nowMs: int, s: P.Store, n: nat, r: Receipt)
    requires InSync(v) && IsValidAmountText(args.amount) && IsValidNonce(args.nonce)
    requires P.EvaluateStep(v.mem.store, POLICY, Request(args, nowMs)) == (s, P.Allow(n)) && n !in s.consumed
    requires r == Mint(v.mem, args.nonce, args.payee, PrintAmount(ParseAmount(args.amount)), args.currency, nowMs, h)
    requires HowRecorded(v.mem, r, nowMs, h).Complete?
    ensures var paid := WithReceipt(v.mem.(store := s.(consumed := s.consumed + {n})), r, nowMs, h);
      SpendStep(v, POLICY, h, args, nowMs, true).0 == Save(Tell(v, Reserved(args.nonce)).(mem := paid), true)
  {
  }

  /** A spend that passes every check is recorded and saved. */
  lemma {:induction false} Spends(
      v: Seat, h: ReceiptHash, nonce: string, currency: string, nowMs: int, s: P.Store, n: nat, s': P.Store)
    requires Ordinary(h) && InSync(v) && 16 <= |nonce| <= 32 && |Utf8.EncodeText(currency)| <= 9000
    requires P.EvaluateStep(v.mem.store, POLICY, Request(Pay(nonce, currency), nowMs)) == (s, P.Allow(n))
      && n !in s.consumed
    requires SeatInv(v, h, true) && Cbor.SafeInt(nowMs) && Timely(nowMs) && s' == s.(consumed := s.consumed + {n})
    ensures var v' := Operate(v, h, Paying(nonce, currency, nowMs));
      && InSync(v') && v'.disk == Some(v'.mem) && v'.mem.store == s'
      && AddsOne(v.mem.receipts, v'.mem.receipts, currency)
  {
    OneIsReadable();
    assert IsValidNonce(nonce);
    var r := Mint(v.mem, nonce, "payee-1", PrintAmount(ParseAmount("1")), currency, nowMs, h);
    LastHashIsShort(v, h);
    assert Brief(r);
    CutEncodesExactly(v.mem, r, nowMs, h);
    assert HowRecorded(v.mem, r, nowMs, h).Complete?;
    SpendIsSaved(v, h, Pay(nonce, currency), nowMs, s, n, r);
  }

  const GRANTED: P.Store := P.Store({FIRST}, {}, P.Counters(1000, 1, 1), 2)
  const ONCE: P.Store := P.Store({FIRST}, {1}, P.Counters(1000, 1, 1), 2)

  lemma {:induction false} FirstGranted(s: P.Store, currency: string)
    requires s == P.EMPTY_STORE
    ensures P.EvaluateStep(s, POLICY, Request(Pay(FIRST, currency), 1000)) == (GRANTED, P.Allow(1))
    ensures 1 !in GRANTED.consumed && ONCE == GRANTED.(consumed := GRANTED.consumed + {1})
  {
    OneIsReadable();
    assert {} + {FIRST} == {FIRST};
  }

  lemma {:induction false} SecondGranted(currency: string)
    ensures P.EvaluateStep(ONCE, POLICY, Request(Pay(SECOND, currency), 1000))
      == (P.Store({FIRST} + {SECOND}, {1}, P.Counters(1000, 2, 2), 3), P.Allow(2))
  {
    OneIsReadable();
    assert FIRST[17] != SECOND[17];
  }

  function OneCurrency(): seq<Action> { [Open(0, KEY, 1000, true)] + [Paying(FIRST, ALPHAS, 1000)] }

  function TwoCurrencies(): seq<Action> { OneCurrency() + [Paying(SECOND, BETAS, 1000)] }

  /** A session alone and in step holds what every run keeps. */
  lemma {:induction false} AloneInv(actions: seq<Action>, v: Seat, h: ReceiptHash)
    requires After(actions, h) == Alone(v) && InSync(v) && TimelyRun(actions)
    ensures SeatInv(v, h, true)
  {
    RunKeeps(actions, h, true);
    assert MemberOk(Alone(v), Alone(v).members[0], h, true);
  }

  lemma {:induction false} OpenedInv(h: ReceiptHash)
    ensures SeatInv(OPENED, h, true) && InSync(OPENED)
  {
    OpensEmpty(h);
    AloneInv([Open(0, KEY, 1000, true)], OPENED, h);
  }

  lemma {:induction false} FirstSpend(before: Seat, h: ReceiptHash, granted: P.Store, once: P.Store) returns (v: Seat)
    requires Ordinary(h) && SeatInv(before, h, true) && InSync(before)
    requires P.EvaluateStep(before.mem.store, POLICY, Request(Pay(FIRST, ALPHAS), 1000)) == (granted, P.Allow(1))
    requires 1 !in granted.consumed && once == granted.(consumed := granted.consumed + {1})
    ensures v == Operate(before, h, Paying(FIRST, ALPHAS, 1000)) && InSync(v) && v.mem.store == once
    ensures AddsOne(before.mem.receipts, v.mem.receipts, ALPHAS)
  {
    v := Operate(before, h, Paying(FIRST, ALPHAS, 1000));
    assert |Utf8.EncodeText(ALPHAS)| <= 9000 by { LongButSignable(); }
    Spends(before, h, FIRST, ALPHAS, 1000, granted, 1, once);
  }

  lemma {:induction false} AddsFirst(was: seq<Receipt>, now: seq<Receipt>, currency: string)
    requires was == [] && AddsOne(was, now, currency)
    ensures |now| == 1 && now[0].currency == currency && now[0].settled
  {
  }

  lemma {:induction false} FirstPaid(h: ReceiptHash) returns (v: Seat)
    requires Ordinary(h)
    ensures After(OneCurrency(), h) == Alone(v) && InSync(v) && v.mem.store == ONCE
    ensures |v.mem.receipts| == 1 && v.mem.receipts[0].currency == ALPHAS && v.mem.receipts[0].settled
  {
    OpenedInv(h);
    FirstGranted(OPENED.mem.store, ALPHAS);
    v := FirstSpend(OPENED, h, GRANTED, ONCE);
    AddsFirst(OPENED.mem.receipts, v.mem.receipts, ALPHAS);
    OpensEmpty(h);
    OperatesAlone([Open(0, KEY, 1000, true)], Paying(FIRST, ALPHAS, 1000), OPENED, h);
  }

  lemma {:induction false} SecondSpend(once: Seat, h: ReceiptHash) returns (v: Seat)
    requires Ordinary(h) && SeatInv(once, h, true) && InSync(once) && once.mem.store == ONCE
    requires |once.mem.receipts| == 1 && once.mem.receipts[0].currency == ALPHAS && once.mem.receipts[0].settled
    ensures v == Operate(once, h, Paying(SECOND, BETAS, 1000)) && InSync(v) && v.disk == Some(v.mem)
    ensures |v.mem.receipts| == 2 && v.mem.receipts[0].settled && v.mem.receipts[1].settled
    ensures v.mem.receipts[0].currency == ALPHAS && v.mem.receipts[1].currency == BETAS
  {
    v := Operate(once, h, Paying(SECOND, BETAS, 1000));
    SecondGranted(BETAS);
    assert |Utf8.EncodeText(BETAS)| <= 9000 by { LongButSignable(); }
    var s := P.Store({FIRST} + {SECOND}, {1}, P.Counters(1000, 2, 2), 3);
    Spends(once, h, SECOND, BETAS, 1000, s, 2, s.(consumed := s.consumed + {2}));
    assert v.mem.receipts[0] == once.mem.receipts[0];
  }

  lemma {:induction false} BothPaid(h: ReceiptHash) returns (v: Seat)
    requires Ordinary(h)
    ensures After(TwoCurrencies(), h) == Alone(v) && SeatInv(v, h, true) && v.disk == Some(v.mem)
    ensures |v.mem.receipts| == 2 && v.mem.receipts[0].settled && v.mem.receipts[1].settled
    ensures v.mem.receipts[0].currency == ALPHAS && v.mem.receipts[1].currency == BETAS
  {
    var once := FirstPaid(h);
    AloneInv(OneCurrency(), once, h);
    v := SecondSpend(once, h);
    OperatesAlone(OneCurrency(), Paying(SECOND, BETAS, 1000), once, h);
    AloneInv(TwoCurrencies(), v, h);
  }

  /** A whole state with settled receipts in two currencies that are together too long. */
  lemma {:induction false} LongCurrenciesFail(
      mem: Image, j: Receipt, k: Receipt, h: ReceiptHash, signer: Signing.Signer, hash: Hash)
    requires Good(mem, h, true) && |mem.receipts| <= AUDIT_MAX_RECEIPTS && signer.Valid()
    requires j in mem.receipts && k in mem.receipts && j.settled && k.settled && j.currency != k.currency
    requires |Utf8.EncodeText(j.currency)| + |Utf8.EncodeText(k.currency)| >= D.CBOR_MAX_STRING
    ensures mem.cut.Some? && !CutShort(mem) && !CutVerified(mem, signer)
    ensures forall pinned: bool, d :: SelfReports(d, mem, pinned, false, h, hash) ==> !d.ok
  {
    LongCurrenciesOutgrow(mem.cut.value, j.currency, k.currency);
    VerifiedExactly(mem, signer, h);
    forall pinned: bool, d | SelfReports(d, mem, pinned, false, h, hash) ensures !d.ok {
      UnverifiedFails(mem, pinned, h, hash);
      FailedCheckIsNotOk(d, mem, pinned, false, h, hash);
    }
  }

  lemma {:induction false} LongPairFails(mem: Image, h: ReceiptHash, signer: Signing.Signer, hash: Hash)
    requires Good(mem, h, true) && signer.Valid() && |mem.receipts| == 2
    requires mem.receipts[0].settled && mem.receipts[1].settled
    requires mem.receipts[0].currency == ALPHAS && mem.receipts[1].currency == BETAS
    ensures !CutShort(mem) && !CutVerified(mem, signer)
    ensures forall pinned: bool, d :: SelfReports(d, mem, pinned, false, h, hash) ==> !d.ok
  {
    LongButSignable();
    assert mem.receipts[0] in mem.receipts && mem.receipts[1] in mem.receipts;
    LongCurrenciesFail(mem, mem.receipts[0], mem.receipts[1], h, signer, hash);
  }

  /** Two payments of 1 in two currencies of 9000 octets each: both are paid, receipted and saved,
      the checkpoint over them is signed and does not verify, and no report of it is ok. */
  lemma {:induction false} TwoLongCurrenciesFail(
      h: ReceiptHash, signer: Signing.Signer, hash: Hash) returns (mem: Image)
    requires Ordinary(h) && signer.Valid()
    ensures After(TwoCurrencies(), h).disk == Some(mem) && |mem.receipts| == 2
    ensures !CutShort(mem) && !CutVerified(mem, signer)
    ensures forall pinned: bool, d :: SelfReports(d, mem, pinned, false, h, hash) ==> !d.ok
  {
    var v := BothPaid(h);
    mem := v.mem;
    LongPairFails(mem, h, signer, hash);
  }

  // ------------------------------------------------------- a payment left half recorded

  const UNANSWERED := Env(true, true, true, RunsOn, NoAnswer)
  const ONLY_PREPARED := Env(true, true, true, StopsAfterPrepared, NoAnswer)

  predicate Nonce(n: string) { 16 <= |n| <= 32 }

  /** The rail did settle it, and dates its row at the last safe integer. */
  function LateRow(n: string): Row { Row(RefFor(n), "1", "USD", Cbor.MAX_SAFE, None) }

  /** Sealed by the rail's key over [0, 2000); the row's time is compared with nothing. */
  function Evidence(n: string): A.Extract {
    A.Extract([LateRow(n)], 0, 2000, None, "account", "rail", Some(RAIL_KEY), true)
  }

  function Submits(n: string): Action { Submit(0, POLICY, Pay(n, "USD"), 1000, UNANSWERED) }

  function Resolves(n: string): Action { Resolve(0, n, Evidence(n), RAIL_KEY, 1500, true) }

  function Reserves(n: string): Action { Submit(0, POLICY, Pay(n, "USD"), 1000, ONLY_PREPARED) }

  function Unanswered(mem: Image, row: Entry): Image {
    Note(Note(Note(mem, row, Prepared, 1000), row, Submitted, 1000), row, Indeterminate, 1000)
  }

  /** A submit that is granted and saved up to its prepared row. */
  lemma {:induction false} Prepares(
      v: Seat, p: P.Policy, h: ReceiptHash, args: Args, nowMs: int, env: Env, s: P.Store, n: nat)
    requires InSync(v) && IsValidAmountText(args.amount) && IsValidNonce(args.nonce) && env.savePrepared
    requires P.EvaluateStep(v.mem.store, p, Request(args, nowMs)) == (s, P.Allow(n))
    ensures var mem := Note(v.mem.(store := s), RowOf(args), Prepared, nowMs);
      env.stop == StopsAfterPrepared ==>
        Operate(v, h, Submit(0, p, args, nowMs, env)) == Seat(Some(mem), mem, Some(mem), v.log + [Reserved(args.nonce)])
  {
  }

  /** A submit the rail gives no answer for. */
  lemma {:induction false} StaysUnanswered(
      v: Seat, p: P.Policy, h: ReceiptHash, args: Args, env: Env, s: P.Store, n: nat)
    requires InSync(v) && IsValidAmountText(args.amount) && IsValidNonce(args.nonce) && env == UNANSWERED
    requires P.EvaluateStep(v.mem.store, p, Request(args, 1000)) == (s, P.Allow(n))
    ensures var mem := Unanswered(v.mem.(store := s), RowOf(args));
      Operate(v, h, Submit(0, p, args, 1000, env))
        == Seat(Some(mem), mem, Some(mem), v.log + [Reserved(args.nonce)] + [Called(args.nonce, 1000)])
  {
  }

  lemma {:induction false} UnansweredIsIndeterminate(mem: Image, row: Entry)
    ensures var j := Unanswered(mem, row).journal;
      Fold(j, row.nonce) == Some(row.(phase := Indeterminate, atMs := 1000))
      && LastSubmitted(j, row.nonce) == Some(1000)
  {
    var two := Note(Note(mem, row, Prepared, 1000), row, Submitted, 1000).journal;
    var j := Unanswered(mem, row).journal;
    assert j[..|j| - 1] == two;
  }

  /** After the submit, the evidence shows the payment settled. */
  lemma {:induction false} EvidenceShows(v: Seat, mem: Image, n: string)
    requires v.mem == Unanswered(mem, RowOf(Pay(n, "USD")))
    ensures ShowsSettled(v, n, Evidence(n), RAIL_KEY) && FirstHit(Evidence(n).rows, RefFor(n)) == Some(LateRow(n))
    ensures Fold(v.mem.journal, n) == Some(Entry(n, "1", "USD", "payee-1", Indeterminate, 1000))
  {
    UnansweredIsIndeterminate(mem, RowOf(Pay(n, "USD")));
  }

  lemma {:induction false} LateReceiptsAreBrief(v: Seat, h: ReceiptHash, row: Entry)
    requires Ordinary(h) && Nonce(row.nonce) && row == Entry(row.nonce, "1", "USD", "payee-1", Indeterminate, 1000)
    ensures var r := ReceiptFor(v.mem, row, Cbor.MAX_SAFE, h);
      Signable(r, h) && Signable(ReceiptFor(Push(v.mem, r), row, Cbor.MAX_SAFE, h), h)
  {
    LastHashIsShort(v, h);
    var r := ReceiptFor(v.mem, row, Cbor.MAX_SAFE, h);
    AsciiLength("USD");
    assert Brief(r);
    LastHashIsShort(v.(mem := Push(v.mem, r)), h);
    assert Brief(ReceiptFor(Push(v.mem, r), row, Cbor.MAX_SAFE, h));
  }

  function Granted(n: string): P.Store { P.Store({n}, {}, P.Counters(1000, 1, 1), 2) }

  function GrantedTwice(n: string, m: string): P.Store { P.Store({n} + {m}, {}, P.Counters(1000, 2, 2), 3) }

  lemma {:induction false} BothGranted(n: string, m: string)
    requires n != m
    ensures P.EvaluateStep(P.EMPTY_STORE, POLICY, Request(Pay(n, "USD"), 1000)) == (Granted(n), P.Allow(1))
    ensures P.EvaluateStep(Granted(n), POLICY, Request(Pay(m, "USD"), 1000)) == (GrantedTwice(n, m), P.Allow(2))
  {
    OneIsReadable();
    assert {} + {n} == {n};
  }

  function Late(n: string): seq<Action> { [Open(0, KEY, 1000, true)] + [Submits(n)] }

  function LateTwice(n: string, m: string): seq<Action> { Late(n) + [Resolves(n)] + [Resolves(n)] + [Reserves(m)] }

  lemma {:induction false} LateSeat(n: string, h: ReceiptHash) returns (v: Seat)
    requires Nonce(n)
    ensures After(Late(n), h) == Alone(v) && InSync(v) && SeatInv(v, h, true)
    ensures v.mem == Unanswered(EmptyImage(KEY).(store := Granted(n)), RowOf(Pay(n, "USD")))
  {
    v := Operate(OPENED, h, Submits(n));
    OneIsReadable();
    BothGranted(n, n + n);
    OpensEmpty(h);
    OperatesAlone([Open(0, KEY, 1000, true)], Submits(n), OPENED, h);
    StaysUnanswered(OPENED, POLICY, h, Pay(n, "USD"), UNANSWERED, Granted(n), 1);
    AloneInv(Late(n), v, h);
  }

  /** Resolving on that evidence once leaves the receipt without its checkpoint; resolving again
      mints a second receipt for the same nonce. */
  lemma {:induction false} ResolvesTwice(
      v: Seat, n: string, h: ReceiptHash, mem: Image) returns (once: Seat, twice: Seat)
    requires Nonce(n) && Ordinary(h) && SeatInv(v, h, true) && InSync(v)
      && v.mem == Unanswered(mem, RowOf(Pay(n, "USD")))
    ensures once == Operate(v, h, Resolves(n)) && twice == Operate(once, h, Resolves(n))
    ensures exists r :: once.mem == Push(v.mem, r)
    ensures InSync(twice) && twice.mem.store == v.mem.store && !NoncesDiffer(twice.mem.receipts)
  {
    EvidenceShows(v, mem, n);
    var row := Fold(v.mem.journal, n).value;
    LateReceiptsAreBrief(v, h, row);
    StrandedIsMintedAgain(v, h, n, Evidence(n), RAIL_KEY, 1500, true);
    once := ResolveStep(v, h, n, Evidence(n), RAIL_KEY, 1500, true).0;
    twice := ResolveStep(once, h, n, Evidence(n), RAIL_KEY, 1500, true).0;
  }

  /** The next payment only has to be reserved: its prepared row is saved with all memory holds. */
  lemma {:induction false} NextSaves(v: Seat, h: ReceiptHash, n: string, m: string) returns (last: Seat)
    requires Nonce(m) && n != m && InSync(v) && v.mem.store == Granted(n)
    ensures last == Operate(v, h, Reserves(m)) && last.disk.Some? && last.disk.value.receipts == v.mem.receipts
  {
    OneIsReadable();
    BothGranted(n, m);
    Prepares(v, POLICY, h, Pay(m, "USD"), 1000, ONLY_PREPARED, GrantedTwice(n, m), 2);
    last := Operate(v, h, Reserves(m));
  }

  /** A submit without an answer, and verified evidence that dates its row at the last safe integer.
      Resolving throws with the receipt already in: no report of that state is ok. Resolving again
      mints a second receipt, and the next payment's prepared row carries both into the file. */
  lemma {:induction false} LateEvidenceFails(
      n: string, m: string, h: ReceiptHash, hash: Hash) returns (once: Image, file: Image)
    requires Nonce(n) && Nonce(m) && n != m && Ordinary(h)
    ensures exists v: Seat :: After(Late(n) + [Resolves(n)], h) == Alone(v) && v.mem == once
    ensures forall pinned: bool, verified: bool, d :: SelfReports(d, once, pinned, verified, h, hash) ==> !d.ok
    ensures After(LateTwice(n, m), h).disk == Some(file) && !NoncesDiffer(file.receipts)
  {
    var v := LateSeat(n, h);
    var mem := EmptyImage(KEY).(store := Granted(n));
    var v1, v2 := ResolvesTwice(v, n, h, mem);
    var last := NextSaves(v2, h, n, m);
    OperatesAlone(Late(n), Resolves(n), v, h);
    OperatesAlone(Late(n) + [Resolves(n)], Resolves(n), v1, h);
    OperatesAlone(Late(n) + [Resolves(n)] + [Resolves(n)], Reserves(m), v2, h);
    once, file := v1.mem, last.disk.value;
    var r :| once == Push(v.mem, r);
    forall pinned: bool, verified: bool, d | SelfReports(d, once, pinned, verified, h, hash) ensures !d.ok {
      StrandedIsNotClean(d, v.mem, r, pinned, verified, h, hash);
    }
  }
}
