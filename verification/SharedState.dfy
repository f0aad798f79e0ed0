/** Sessions that share one state file, with crashes and failed writes anywhere, over whole runs. */
module SharedState {
  import opened Options
  import opened Records
  import opened Journal
  import opened Sessions
  import opened SessionSteps
  import opened SessionSafety
  import P = Policies
  import A = Audit

  datatype Member = Member(mem: Image, lastSeen: Option<Image>)

  datatype World = World(disk: Option<Image>, members: map<nat, Member>, log: seq<Event>)

  const BEGINNING := World(None, map[], [])

  /** One thing that happens. Opening and reloading are taken as single steps; a crash may
      come between any two of the others, and an operation may itself stop half way. */
  datatype Action =
    | Open(id: nat, key: Key, nowMs: int, ok: bool)
    | Reload(id: nat, nowMs: int, ok: bool)
    | Spend(id: nat, p: P.Policy, args: Args, nowMs: int, ok: bool)
    | Submit(id: nat, p: P.Policy, args: Args, nowMs: int, env: Env)
    | Retry(id: nat, nonce: string, idempotent: bool, nowMs: int, env: Env)
    | Resolve(id: nat, nonce: string, x: A.Extract, railKey: Key, nowMs: int, ok: bool)
    | Crash(id: nat)

  function SeatOf(w: World, m: Member): Seat { Seat(w.disk, m.mem, m.lastSeen, w.log) }

  function Seated(w: World, id: nat, v: Seat): World {
    World(v.disk, w.members[id := Member(v.mem, v.lastSeen)], v.log)
  }

  function Operate(v: Seat, h: ReceiptHash, a: Action): Seat {
    match a
    case Spend(_, p, args, nowMs, ok) => SpendStep(v, p, h, args, nowMs, ok).0
    case Submit(_, p, args, nowMs, env) => SubmitStep(v, p, h, args, nowMs, env).0
    case Retry(_, nonce, idempotent, nowMs, env) => RetryStep(v, h, nonce, idempotent, nowMs, env).0
    case Resolve(_, nonce, x, railKey, nowMs, ok) => ResolveStep(v, h, nonce, x, railKey, nowMs, ok).0
    case _ => v
  }

  function Loaded(w: World, id: nat, got: Option<Seat>): World {
    if got.Some? then Seated(w, id, got.value) else w
  }

  function Act(w: World, h: ReceiptHash, a: Action): World {
    match a
    case Open(id, key, nowMs, ok) =>
      if id in w.members then w else Loaded(w, id, LoadStep(w.disk, EmptyImage(key), nowMs, w.log, ok))
    case Reload(id, nowMs, ok) =>
      if id !in w.members then w
      else Loaded(w, id, LoadStep(w.disk, Emptied(w.members[id].mem), nowMs, w.log, ok))
    case Crash(id) => w.(members := w.members - {id})
    case _ => if a.id !in w.members then w else Seated(w, a.id, Operate(SeatOf(w, w.members[a.id]), h, a))
  }

  function After(actions: seq<Action>, h: ReceiptHash): World {
    if actions == [] then BEGINNING else Act(After(actions[..|actions| - 1], h), h, actions[|actions| - 1])
  }

  /** The clock leaves a window room to end, and so do the times of the evidence. An in-process
      spend needs no such thing: it is undone whenever it cannot be recorded in full. */
  predicate TimelyAction(a: Action) {
    match a
    case Submit(_, _, _, nowMs, _) => Timely(nowMs)
    case Retry(_, _, _, nowMs, _) => Timely(nowMs)
    case Resolve(_, _, x, _, nowMs, _) => Timely(nowMs) && forall s :: s in x.rows ==> Timely(s.timestampMs)
    case _ => true
  }

  ghost predicate TimelyRun(actions: seq<Action>) { forall a :: a in actions ==> TimelyAction(a) }

  /** One policy for all sessions on the file, and a clock that may run backwards but is positive. */
  predicate UnderPolicy(a: Action, p: P.Policy) {
    match a
    case Spend(_, q, _, nowMs, _) => q == p && nowMs > 0
    case Submit(_, q, _, nowMs, _) => q == p && nowMs > 0
    case _ => true
  }

  ghost predicate RunUnderPolicy(actions: seq<Action>, p: P.Policy) { forall a :: a in actions ==> UnderPolicy(a, p) }

  /** The action asks the policy engine. */
  predicate Asks(a: Action) { a.Spend? || a.Submit? }

  /** The image is held by a session or by the file. */
  ghost predicate HoldsImage(w: World, img: Image) {
    w.disk == Some(img) || exists id :: id in w.members && w.members[id].mem == img
  }

  // ---------------------------------------------------------------------- invariant

  ghost predicate MemberOk(w: World, m: Member, h: ReceiptHash, whole: bool) {
    && Good(m.mem, h, whole)
    && (m.lastSeen.Some? ==> Extends(m.mem, m.lastSeen.value))
    && (m.lastSeen.Some? ==> w.disk.Some? && Extends(w.disk.value, m.lastSeen.value))
    && (m.lastSeen == w.disk ==> Guards(m.mem, w.log))
  }

  ghost predicate Inv(w: World, h: ReceiptHash, whole: bool) {
    && DiskGood(w.disk, h, whole) && DiskGuards(w.disk, w.log) && LogSound(w.log)
    && forall id :: id in w.members ==> MemberOk(w, w.members[id], h, whole)
  }

  ghost predicate Grows(was: Option<Image>, now: Option<Image>) {
    now == was || (now.Some? && (was.Some? ==> Longer(now.value, was.value)))
  }

  /** A session that did not act: out of step once the file has grown, and otherwise nothing
      new is out. */
  lemma {:induction false} BystanderOk(w: World, m: Member, v: Seat, v': Seat, w': World, h: ReceiptHash, whole: bool)
    requires MemberOk(w, m, h, whole) && v.disk == w.disk && v.log == w.log && Moves(v, v')
    requires w'.disk == v'.disk && w'.log == v'.log
    ensures MemberOk(w', m, h, whole)
  {
    if v'.disk == v.disk && forall n :: Eases(v.log, v'.log, n) {
      if m.lastSeen == w'.disk {
        EasedGuards(m.mem, w.log, w'.log);
      }
    } else if m.lastSeen.Some? {
      assert Longer(w'.disk.value, w.disk.value);
    }
  }

  lemma {:induction false} SeatedKeeps(w: World, id: nat, v: Seat, v': Seat, h: ReceiptHash, whole: bool)
    requires Inv(w, h, whole) && v.disk == w.disk && v.log == w.log && Steps(v, v', h, whole)
    ensures Inv(Seated(w, id, v'), h, whole) && Grows(w.disk, v'.disk)
  {
    var w' := Seated(w, id, v');
    forall k | k in w'.members ensures MemberOk(w', w'.members[k], h, whole) {
      if k != id {
        BystanderOk(w, w.members[k], v, v', w', h, whole);
      }
    }
  }

  lemma {:induction false} OperateKeeps(v: Seat, h: ReceiptHash, a: Action, whole: bool)
    requires SeatInv(v, h, whole) && InSync(v)
    requires whole ==> TimelyAction(a)
    ensures Steps(v, Operate(v, h, a), h, whole)
  {
    match a
    case Spend(_, p, args, nowMs, ok) => SpendStepKeeps(v, p, h, args, nowMs, ok, whole);
    case Submit(_, p, args, nowMs, env) => SubmitStepKeeps(v, p, h, args, nowMs, env, whole);
    case Retry(_, nonce, idempotent, nowMs, env) => RetryStepKeeps(v, h, nonce, idempotent, nowMs, env, whole);
    case Resolve(_, nonce, x, railKey, nowMs, ok) => ResolveStepKeeps(v, h, nonce, x, railKey, nowMs, ok, whole);
    case _ => MemKeeps(v, v.mem, h, whole);
  }

  /** A session whose file has changed under it does nothing at all. */
  lemma {:induction false} OutOfStepIsRefused(v: Seat, h: ReceiptHash, a: Action)
    requires !InSync(v)
    ensures Operate(v, h, a) == v
  {
  }

  lemma {:induction false} ActKeeps(w: World, h: ReceiptHash, a: Action, whole: bool)
    requires Inv(w, h, whole)
    requires whole ==> TimelyAction(a)
    ensures Inv(Act(w, h, a), h, whole) && Grows(w.disk, Act(w, h, a).disk)
  {
    match a {
      case Open(id, key, nowMs, ok) =>
        EmptyIsGood(key, h, whole);
        LoadInto(w, id, EmptyImage(key), nowMs, ok, h, whole);
      case Reload(id, nowMs, ok) =>
        if id in w.members {
          LoadInto(w, id, Emptied(w.members[id].mem), nowMs, ok, h, whole);
        }
      case Crash(id) =>
        var w' := w.(members := w.members - {id});
        forall k | k in w'.members ensures MemberOk(w', w'.members[k], h, whole) {
          assert MemberOk(w, w.members[k], h, whole);
        }
      case _ =>
        if a.id in w.members {
          OperateIn(w, a.id, h, a, whole);
        }
    }
  }

  lemma {:induction false} LoadInto(w: World, id: nat, blank: Image, nowMs: int, ok: bool, h: ReceiptHash, whole: bool)
    requires Inv(w, h, whole) && Good(blank, h, whole) && blank.journal == []
    ensures var w' := Loaded(w, id, LoadStep(w.disk, blank, nowMs, w.log, ok));
      Inv(w', h, whole) && Grows(w.disk, w'.disk)
  {
    LoadKeeps(w.disk, blank, nowMs, w.log, ok, h, whole);
    var got := LoadStep(w.disk, blank, nowMs, w.log, ok);
    if got.Some? {
      SeatedKeeps(w, id, Seat(w.disk, blank, w.disk, w.log), got.value, h, whole);
    }
  }

  lemma {:induction false} OperateIn(w: World, id: nat, h: ReceiptHash, a: Action, whole: bool)
    requires Inv(w, h, whole) && id in w.members
    requires whole ==> TimelyAction(a)
    ensures var w' := Seated(w, id, Operate(SeatOf(w, w.members[id]), h, a));
      Inv(w', h, whole) && Grows(w.disk, w'.disk)
  {
    var v := SeatOf(w, w.members[id]);
    assert MemberOk(w, w.members[id], h, whole);
    if InSync(v) {
      OperateKeeps(v, h, a, whole);
      SeatedKeeps(w, id, v, Operate(v, h, a), h, whole);
    } else {
      OutOfStepIsRefused(v, h, a);
      assert w.members[id := Member(v.mem, v.lastSeen)] == w.members;
      assert Seated(w, id, v) == w;
    }
  }

  lemma {:induction false} RunKeeps(actions: seq<Action>, h: ReceiptHash, whole: bool)
    requires whole ==> TimelyRun(actions)
    ensures Inv(After(actions, h), h, whole)
  {
    if actions != [] {
      var init := actions[..|actions| - 1];
      RunKeeps(init, h, whole);
      ActKeeps(After(init, h), h, actions[|actions| - 1], whole);
    } else {
      forall n ensures !Live(BEGINNING.log, n) { }
    }
  }

  // -------------------------------------------------------------- what every run keeps

  /** A nonce the rail was called for since its latest reserve stays burned, on disk and in
      every session in step with the disk, until the rail answers that it failed or a verified
      extract proves it absent. No run of crashes, failed writes, restarts, retries and
      recoveries loses it. */
  lemma {:induction false} LiveNonceStaysBurned(actions: seq<Action>, h: ReceiptHash, n: string)
    requires Live(After(actions, h).log, n)
    ensures var w := After(actions, h);
      && w.disk.Some? && n in w.disk.value.store.usedNonces && Out(w.disk.value.journal, n)
      && forall id :: id in w.members && w.members[id].lastSeen == w.disk ==>
           n in w.members[id].mem.store.usedNonces && Out(w.members[id].mem.journal, n)
  {
    var w := After(actions, h);
    RunKeeps(actions, h, false);
    assert w.disk.Some? && HeldIfLive(w.disk.value, w.log, n);
    forall id | id in w.members && w.members[id].lastSeen == w.disk
      ensures n in w.members[id].mem.store.usedNonces && Out(w.members[id].mem.journal, n)
    {
      assert MemberOk(w, w.members[id], h, false) && HeldIfLive(w.members[id].mem, w.log, n);
    }
  }

  /** So a live nonce is never reserved again, and it is only ever given up for absence on a
      verified extract without its row whose window covers every call since the reserve. */
  lemma {:induction false} EveryReleaseHasItsReason(actions: seq<Action>, h: ReceiptHash, i: nat)
    requires i < |After(actions, h).log|
    ensures var log := After(actions, h).log;
      && (log[i].Reserved? ==> !Live(log[..i], log[i].nonce))
      && (log[i].FoundAbsent? ==>
            ProvesAbsent(log[i].extract, log[i].railKey, log[i].nonce, OpenCalls(log[..i], log[i].nonce)))
  {
    RunKeeps(actions, h, false);
    assert SoundAt(After(actions, h).log, i);
  }

  lemma {:induction false} ExtendsOn(a: Image, b: Image, c: Image)
    requires Extends(b, a) && Extends(c, b)
    ensures Extends(c, a)
  {
  }

  /** Receipts and journal on disk only grow by appending: nothing saved is ever lost. */
  lemma {:induction false} SavedStaysSaved(actions: seq<Action>, h: ReceiptHash, k: nat)
    requires k <= |actions| && After(actions[..k], h).disk.Some?
    ensures After(actions, h).disk.Some?
    ensures Extends(After(actions, h).disk.value, After(actions[..k], h).disk.value)
    decreases |actions|
  {
    if k < |actions| {
      var init := actions[..|actions| - 1];
      assert init[..k] == actions[..k];
      SavedStaysSaved(init, h, k);
      RunKeeps(init, h, false);
      ActKeeps(After(init, h), h, actions[|actions| - 1], false);
      ExtendsOn(After(actions[..k], h).disk.value, After(init, h).disk.value, After(actions, h).disk.value);
    } else {
      assert actions[..k] == actions;
    }
  }

  /** Every successful write is built on exactly the file it replaces: it is made by a session
      that last saw that very file, or loaded it in the same step, and it appends to it. */
  lemma {:induction false} WritesBuildOnTheFile(actions: seq<Action>, h: ReceiptHash, a: Action)
    ensures var w, w' := After(actions, h), Act(After(actions, h), h, a);
      w'.disk != w.disk ==>
        && (a.Open? || a.Reload? || (a.id in w.members && w.members[a.id].lastSeen == w.disk))
        && w'.disk.Some? && (w.disk.Some? ==> Longer(w'.disk.value, w.disk.value))
  {
    var w := After(actions, h);
    RunKeeps(actions, h, false);
    ActKeeps(w, h, a, false);
    if !a.Open? && !a.Reload? && !a.Crash? && a.id in w.members && !InSync(SeatOf(w, w.members[a.id])) {
      OutOfStepIsRefused(SeatOf(w, w.members[a.id]), h, a);
    }
  }
}
