/** A payment that straddles an inner edge: settled by the rail just after the windows meet,
    receipted just before. The run is clean, so the claims about clean runs speak of something. */
module StraddlingPayment {
  import opened Options
  import opened Records
  import opened Bags
  import opened Reconcile
  import opened Audit
  import opened Windows

  const ISSUER: Key := 1
  const RAIL: Key := 2

  // The texts of the example do not matter, so one text t stands for all of them.

  function Paid(t: string): Receipt { Receipt(t, t, t, t, Some(t), 995, None, true, true, Some(ISSUER)) }

  function Settlement(t: string): Row { Row(t, t, t, 1002, None) }

  function Early(t: string): Extract { Extract([], 0, 1000, Some(10), t, t, Some(RAIL), true) }

  function Late(t: string): Extract { Extract([Settlement(t)], 1000, 2000, Some(10), t, t, Some(RAIL), true) }

  function Pin(t: string, startMs: int, endMs: int): RailPin {
    RailPin([Some(RAIL)], Some(t), Some(t), Some(startMs), Some(endMs))
  }

  function TheRun(t: string): Run {
    Run([WindowIn([Paid(t)], false, Early(t), None, []), WindowIn([], false, Late(t), None, [])],
        Some(Pin(t, 0, 2000)), Some([Some(ISSUER)]), true)
  }

  function FirstInput(t: string): Input {
    Input([Paid(t)], false, None, Some(Early(t)), Some(Pin(t, 0, 1000)), Some([Some(ISSUER)]), None, Some(Late(t)),
      None, true, [])
  }

  function SecondInput(t: string): Input {
    Input([], false, None, Some(Late(t)), Some(Pin(t, 1000, 2000)), Some([Some(ISSUER)]), Some(Early(t)), None, None,
      true, [])
  }

  lemma {:induction false} RunTiles(t: string)
    ensures Tiles(TheRun(t).windows, TheRun(t).trust)
    ensures WindowInput(TheRun(t), 0) == FirstInput(t)
    ensures WindowInput(TheRun(t), 1) == SecondInput(t)
  {
  }

  lemma {:induction false} GatherOne<T, U(!new)>(x: T, f: T -> multiset<U>)
    ensures Gather([x], f) == f(x)
  {
    assert [x][..0] == [];
    assert Gather([x][..0], f) == multiset{};
  }

  lemma {:induction false} KeepOne<T(!new)>(x: T, p: T -> bool)
    requires p(x)
    ensures Keep([x], p) == [x]
  {
    assert [x][..0] == [];
    assert Keep([x][..0], p) == [];
  }

  // ------------------------------------------------------------------ the documents

  lemma {:induction false} PinHolds(t: string, x: Extract, startMs: int, endMs: int)
    requires x.isSealed && x.carries == Some(RAIL) && x.accountId == t && x.railId == t
    requires x.startMs == startMs && x.endMs == endMs
    ensures Verifies(x, Some(Pin(t, startMs, endMs))) && !Rejected(x, Some(Pin(t, startMs, endMs)))
    ensures PinFindings(x, Pin(t, startMs, endMs)) == []
  {
    assert Some(RAIL) in Pin(t, startMs, endMs).keys;
  }

  lemma {:induction false} FirstDocuments(t: string)
    ensures !Refused(FirstInput(t))
    ensures StatedFindings(FirstInput(t)) == [] && IssuerFindings(FirstInput(t)) == []
      && CounterpartyFindings(FirstInput(t)) == []
  {
    PinHolds(t, Early(t), 0, 1000);
    assert Some(ISSUER) in FirstInput(t).issuer.value;
  }

  lemma {:induction false} SecondDocuments(t: string)
    ensures !Refused(SecondInput(t))
    ensures StatedFindings(SecondInput(t)) == [] && IssuerFindings(SecondInput(t)) == []
      && CounterpartyFindings(SecondInput(t)) == []
  {
    PinHolds(t, Late(t), 1000, 2000);
    assert Some(ISSUER) in SecondInput(t).issuer.value;
  }

  lemma {:induction false} LateIsInside(t: string)
    ensures Gather(Late(t).rows, OutsideOf(Late(t))) == multiset{} && InsideRows(Late(t)) == [Settlement(t)]
  {
    GatherOne(Settlement(t), OutsideOf(Late(t)));
    KeepOne(Settlement(t), (s: Row) => Inside(Late(t), s));
  }

  lemma {:induction false} FirstNeighbours(t: string)
    ensures var p := Some(Pin(t, 0, 1000));
      && NextDoorBag(Early(t), Some(Late(t)), Closing, p) == multiset{}
      && NeighbourOf(Early(t), Some(Late(t)), Closing, p) == Some(Neighbour([Settlement(t)], 1000))
      && NextDoorBag(Early(t), None, Opening, p) == multiset{} && NeighbourOf(Early(t), None, Opening, p) == None
  {
    assert Some(RAIL) in Pin(t, 0, 1000).keys;
    assert ScopeGaps(Early(t), Late(t), Closing) == [];
    LateIsInside(t);
  }

  lemma {:induction false} SecondNeighbours(t: string)
    ensures var p := Some(Pin(t, 1000, 2000));
      && NextDoorBag(Late(t), Some(Early(t)), Opening, p) == multiset{}
      && NextDoorBag(Late(t), None, Closing, p) == multiset{} && NeighbourOf(Late(t), None, Closing, p) == None
  {
    assert Some(RAIL) in Pin(t, 1000, 2000).keys;
    assert ScopeGaps(Late(t), Early(t), Opening) == [];
    assert Gather(Early(t).rows, OutsideOf(Early(t))) == multiset{};
  }

  lemma {:induction false} EvidenceIsClean(t: string)
    ensures EvidenceBag(FirstInput(t)) == multiset{} && EvidenceBag(SecondInput(t)) == multiset{}
  {
    FirstDocuments(t);
    SecondDocuments(t);
    FirstNeighbours(t);
    SecondNeighbours(t);
    LateIsInside(t);
    assert Gather(Early(t).rows, OutsideOf(Early(t))) == multiset{};
    assert EdgeBag(FirstInput(t)) == multiset{};
    assert EdgeBag(SecondInput(t)) == multiset{};
  }

  // ---------------------------------------------------------------------- the classes

  function FirstBoundary(t: string): Option<Boundary> {
    Some(Boundary(0, 1000, 10, None, Some(Neighbour([Settlement(t)], 1000))))
  }

  function FirstCtx(t: string): Ctx { Ctx(multiset{t}, multiset{}, FirstBoundary(t)) }

  lemma {:induction false} FirstScope(t: string)
    ensures Attested(FirstInput(t)) == [Paid(t)] && InScopeOf(FirstInput(t)) == [Paid(t)]
  {
    var i := FirstInput(t);
    assert Some(ISSUER) in i.issuer.value;
    KeepOne(Paid(t), (r: Receipt) => Attests(i, r));
    KeepOne(Paid(t), (r: Receipt) => InScope(i, r));
  }

  lemma {:induction false} FirstClasses(t: string)
    ensures BoundaryOf(FirstInput(t)) == FirstBoundary(t)
    ensures CtxOf([Paid(t)], [], FirstBoundary(t)) == FirstCtx(t)
    ensures ClassOfReceipt(FirstCtx(t), Paid(t)) == Carried(Closing)
  {
    FirstNeighbours(t);
    GatherOne(Paid(t), RefOf());
    assert NamesAt(Neighbour([Settlement(t)], 1000), 0, Paid(t), Closing, 10);
  }

  lemma {:induction false} FirstFindings(t: string)
    ensures FindingBag([Paid(t)], [], FirstBoundary(t)) == multiset{}
  {
    FirstClasses(t);
    GatherOne(Paid(t), ReceiptFindingOf(FirstCtx(t)));
    assert RepeatedIn(multiset{t}) == {};
    var none: multiset<string> := multiset{};
    assert RepeatedIn(none) == {};
  }

  lemma {:induction false} FirstIsSilent(t: string)
    ensures Said(FirstInput(t)) == multiset{}
  {
    EvidenceIsClean(t);
    FirstDocuments(t);
    FirstScope(t);
    FirstClasses(t);
    FirstFindings(t);
    GatherOne(Paid(t), DefectOf());
    GatherOne(Paid(t), RefOf());
    assert RepeatedIn(multiset{t}) == {};
    assert RecordsBag(FirstInput(t)) == multiset{};
  }

  function SecondCtx(t: string, b: Option<Boundary>): Ctx { Ctx(multiset{}, multiset{t}, b) }

  function Waiting(t: string): Finding { Finding(BoundaryDeferred, t, true, Receipts) }

  lemma {:induction false} SecondClasses(t: string, b: Option<Boundary>)
    requires b == BoundaryOf(SecondInput(t))
    ensures CtxOf([], [Settlement(t)], b) == SecondCtx(t, b)
    ensures ClassOfRow(SecondCtx(t, b), Settlement(t)) == RowDeferred(true, false)
  {
    GatherOne(Settlement(t), RowRefOf());
  }

  lemma {:induction false} SecondFindings(t: string, b: Option<Boundary>)
    requires b == BoundaryOf(SecondInput(t))
    ensures FindingBag([], [Settlement(t)], b) == multiset{Waiting(t)}
  {
    SecondClasses(t, b);
    GatherOne(Settlement(t), RowFindingOf(SecondCtx(t, b)));
    GatherOne(Settlement(t), PairFindingOf(SecondCtx(t, b), []));
    assert RepeatedIn(multiset{t}) == {};
    var none: multiset<string> := multiset{};
    assert RepeatedIn(none) == {};
  }

  lemma {:induction false} SecondScope(t: string)
    ensures Attested(SecondInput(t)) == [] && InScopeOf(SecondInput(t)) == []
  {
  }

  lemma {:induction false} SecondClashes(t: string)
    ensures ClashBag(SecondInput(t)) == multiset{} && Gather(SecondInput(t).receipts, DefectOf()) == multiset{}
  {
    SecondScope(t);
    var none: multiset<string> := multiset{};
    assert RepeatedIn(none) == {};
  }

  lemma {:induction false} SecondReconciles(t: string)
    ensures ReconcileBag(SecondInput(t)) == multiset{Waiting(t)}
  {
    SecondDocuments(t);
    SecondScope(t);
    SecondFindings(t, BoundaryOf(SecondInput(t)));
  }

  lemma {:induction false} SaidOf(i: Input, clashes: multiset<Finding>, compared: multiset<Finding>)
    requires EvidenceBag(i) == multiset{} && Gather(i.receipts, DefectOf()) == multiset{}
    requires ClashBag(i) == clashes && ReconcileBag(i) == compared
    ensures Said(i) == clashes + compared
  {
  }

  lemma {:induction false} SecondWaits(t: string)
    ensures Said(SecondInput(t)) == multiset{Waiting(t)}
  {
    EvidenceIsClean(t);
    SecondClashes(t);
    SecondReconciles(t);
    SaidOf(SecondInput(t), multiset{}, multiset{Waiting(t)});
  }

  // ----------------------------------------------------------------------- the reports

  function FirstDetail(t: string): Detail { Detail(true, true, [], [], [EdgeRef(t, Closing)], [], []) }

  function SecondDetail(t: string): Detail {
    Detail(true, false, [], [Waiting(t)], [], [DeferredRow(t, true, false)], [])
  }

  lemma {:induction false} FirstLists(t: string)
    ensures Classes([EdgeRef(t, Closing)], [], [], FirstInput(t))
  {
    FirstDocuments(t);
    FirstScope(t);
    FirstClasses(t);
    assert WindowCtx(FirstInput(t)) == FirstCtx(t);
    GatherOne(Paid(t), CarriedOf(FirstCtx(t)));
    assert Gather(RowsOf(FirstInput(t)), DeferredOf(FirstCtx(t))) == multiset{};
    assert Gather(RowsOf(FirstInput(t)), MatchedOf(FirstCtx(t))) == multiset{};
  }

  lemma {:induction false} SecondLists(t: string)
    ensures Classes([], [DeferredRow(t, true, false)], [], SecondInput(t))
  {
    var b := BoundaryOf(SecondInput(t));
    var c := SecondCtx(t, b);
    assert !Refused(SecondInput(t)) by { SecondDocuments(t); }
    assert InScopeOf(SecondInput(t)) == [] && WindowCtx(SecondInput(t)) == c by {
      SecondScope(t);
      SecondClasses(t, b);
    }
    assert Gather([Settlement(t)], DeferredOf(c)) == multiset{DeferredRow(t, true, false)} by {
      SecondClasses(t, b);
      GatherOne(Settlement(t), DeferredOf(c));
    }
    assert Gather([Settlement(t)], MatchedOf(c)) == multiset{} by {
      SecondClasses(t, b);
      GatherOne(Settlement(t), MatchedOf(c));
    }
  }

  lemma {:induction false} FirstGraded(t: string)
    ensures Graded(FirstDetail(t))
  {
  }

  lemma {:induction false} SecondGraded(t: string)
    ensures Graded(SecondDetail(t))
  {
    assert Waiting(t) in SecondDetail(t).warnings;
  }

  lemma {:induction false} FirstAudited(t: string)
    ensures Audits(FirstDetail(t), FirstInput(t))
  {
    var d := FirstDetail(t);
    assert Graded(d) by { FirstGraded(t); }
    assert Classes(d.carried, d.deferredRows, d.matched, FirstInput(t)) by { FirstLists(t); }
    assert multiset(d.findings) + multiset(d.warnings) == Said(FirstInput(t)) by { FirstIsSilent(t); }
  }

  lemma {:induction false} SecondAudited(t: string)
    ensures Audits(SecondDetail(t), SecondInput(t))
  {
    var d := SecondDetail(t);
    assert Graded(d) by { SecondGraded(t); }
    assert Classes(d.carried, d.deferredRows, d.matched, SecondInput(t)) by { SecondLists(t); }
    assert multiset(d.findings) + multiset(d.warnings) == Said(SecondInput(t)) by { SecondWaits(t); }
  }

  function Details(t: string): seq<Detail> { [FirstDetail(t), SecondDetail(t)] }

  lemma {:induction false} EdgeResolves(t: string)
    ensures Removed(Details(t), 1, t)
    ensures HardenedUpTo(Details(t), 2) == multiset{} && ResolvedUpTo(Details(t), 2) == 1
  {
    var d := DeferredRow(t, true, false);
    FirstDefersNothing(t);
    assert EdgeRef(t, Closing) in Details(t)[0].carried;
    assert Details(t)[1].deferredRows[0] == d;
    GatherOne(d, HardenedOf(Details(t), 1));
    assert [d][..0] == [];
    assert Total([d], ResolvedOf(Details(t), 1)) == Total([d][..0], ResolvedOf(Details(t), 1)) + 1;
  }

  lemma {:induction false} FirstDefersNothing(t: string)
    ensures HardenedUpTo(Details(t), 1) == multiset{} && ResolvedUpTo(Details(t), 1) == 0
  {
    var none: seq<DeferredRow> := [];
    assert Details(t)[0].deferredRows == none;
    assert Gather(none, HardenedOf(Details(t), 0)) == multiset{} && Total(none, ResolvedOf(Details(t), 0)) == 0;
    assert HardenedUpTo(Details(t), 0) == multiset{} && ResolvedUpTo(Details(t), 0) == 0;
  }

  lemma {:induction false} RowUsedOnce(t: string)
    ensures Uses(Details(t)) == multiset{Use(1, t)}
  {
    assert Details(t)[..1] == [FirstDetail(t)] && [FirstDetail(t)][..0] == [];
    assert Uses([FirstDetail(t)][..0]) == multiset{};
    GatherOne(EdgeRef(t, Closing), CarriedUse(0));
    assert UsesAt(0, FirstDetail(t)) == multiset{Use(1, t)};
    assert UsesAt(1, SecondDetail(t)) == multiset{};
  }

  lemma {:induction false} NothingIsSaidOfTheRun(t: string)
    ensures RunBag(TheRun(t), Details(t)) == multiset{}
  {
    RunTiles(t);
    EdgeResolves(t);
    RowUsedOnce(t);
    assert ReusedRows(multiset{Use(1, t)}) == {};
  }

  lemma {:induction false} OnlyASettledWarning(t: string)
    ensures RunGuarantee(Details(t), [])
  {
    EdgeResolves(t);
    assert Settled(Details(t), 1, Waiting(t));
    assert OnlyScopeWarnings(Details(t), 0) && OnlyScopeWarnings(Details(t), 1);
  }

  lemma {:induction false} BothAudited(t: string)
    ensures AuditedAll(TheRun(t), Details(t))
  {
    RunTiles(t);
    forall i: nat | i < |Details(t)| ensures AuditedAt(TheRun(t))(i, Details(t)[i]) {
      if i == 0 {
        FirstAudited(t);
      } else {
        SecondAudited(t);
      }
    }
  }

  lemma {:induction false} SilentRunReports(out: Report, run: Run)
    requires AuditedAll(run, out.windows) && RunBag(run, out.windows) == multiset{}
    requires forall i :: 0 <= i < |out.windows| ==> out.windows[i].ok
    requires out.ok && out.unconditional && out.findings == [] && RunGuarantee(out.windows, [])
    requires out.resolved == ResolvedUpTo(out.windows, |out.windows|)
    ensures Reports(out, run)
  {
  }

  lemma {:induction false} BothAreOk(t: string)
    ensures forall i :: 0 <= i < |Details(t)| ==> Details(t)[i].ok
  {
    assert FirstDetail(t).ok && SecondDetail(t).ok;
  }

  /** The run reports ok and unconditional, with the one deferral resolved. */
  lemma {:induction false} TheRunIsClean(t: string)
    ensures Reports(Report(true, true, [], Details(t), 1), TheRun(t))
  {
    assert AuditedAll(TheRun(t), Details(t)) by { BothAudited(t); }
    assert RunBag(TheRun(t), Details(t)) == multiset{} by { NothingIsSaidOfTheRun(t); }
    assert 1 == ResolvedUpTo(Details(t), |Details(t)|) by { EdgeResolves(t); }
    assert RunGuarantee(Details(t), []) by { OnlyASettledWarning(t); }
    BothAreOk(t);
    SilentRunReports(Report(true, true, [], Details(t), 1), TheRun(t));
  }
}
