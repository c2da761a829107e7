/** Accounting over runs of the driver: reference counts against claims, and live CUDA handles and
    descriptors against the table. */
module DriverAccounts {
  import opened Arithmetic
  import opened Text
  import opened Keys
  import opened DriverState
  import opened DriverInvariants

  // ----- Runs -----

  function Empty(gran: nat): State {
    State(gran, map[], map[], {}, map[], map[])
  }

  ghost predicate PossibleRun(s: State, es: seq<Event>)
    requires Sound(s)
    decreases es
  {
    es == [] ||
    (Possible(s, es[0]) && WellNamed(es[0]) && (SoundStep(s, es[0]); PossibleRun(Next(s, es[0]), es[1..])))
  }

  ghost function Run(s: State, es: seq<Event>): State
    requires Sound(s) && PossibleRun(s, es)
    decreases es
  {
    if es == [] then s else (SoundStep(s, es[0]); Run(Next(s, es[0]), es[1..]))
  }

  /** Every step of the run satisfies `ok` in the state it is taken from. */
  ghost predicate Throughout(s: State, es: seq<Event>, ok: (State, Event) -> bool)
    requires Sound(s) && PossibleRun(s, es)
    decreases es
  {
    es == [] || (ok(s, es[0]) && (SoundStep(s, es[0]); Throughout(Next(s, es[0]), es[1..], ok)))
  }

  lemma {:induction false} RunKeepsInvariants(s: State, es: seq<Event>)
    requires Sound(s) && Tree(s) && PossibleRun(s, es)
    ensures Sound(Run(s, es)) && Tree(Run(s, es))
    decreases es
  {
    if es != [] {
      SoundStep(s, es[0]);
      TreeStep(s, es[0]);
      RunKeepsInvariants(Next(s, es[0]), es[1..]);
    }
  }

  /** A run that starts with `e`. */
  lemma {:induction false} RunFrom(s: State, e: Event, es: seq<Event>)
    requires Sound(s) && PossibleRun(s, [e] + es)
    ensures Possible(s, e) && WellNamed(e) && Sound(Next(s, e)) && PossibleRun(Next(s, e), es)
    ensures Run(s, [e] + es) == Run(Next(s, e), es)
  {
    SoundStep(s, e);
    assert ([e] + es)[1..] == es;
  }

  /** Runs step by step from their end. */
  lemma {:induction false} RunUpTo(s: State, es: seq<Event>, k: nat)
    requires Sound(s) && PossibleRun(s, es) && k < |es|
    ensures PossibleRun(s, es[..k]) && PossibleRun(s, es[..k + 1]) && Sound(Run(s, es[..k]))
    ensures Possible(Run(s, es[..k]), es[k]) && Run(s, es[..k + 1]) == Next(Run(s, es[..k]), es[k])
    decreases k
  {
    SoundStep(s, es[0]);
    var t := Next(s, es[0]);
    if k == 0 {
      assert es[..1] == [es[0]] && [es[0]][1..] == [];
      assert PossibleRun(t, []) && Run(t, []) == t;
    } else {
      RunUpTo(t, es[1..], k - 1);
      assert es[1..][..k - 1] == es[..k][1..] && es[1..][..k] == es[..k + 1][1..];
    }
  }

  // ----- Reference counts -----

  function Claimants(s: State, id: string): set<string> {
    set c | c in s.claims && s.claims[c] == id
  }

  function RefCount(s: State, id: string): int {
    if id in s.table && s.table[id].refCount.Some? then s.table[id].refCount.value else 0
  }

  /** References that no claim accounts for. */
  function Surplus(s: State, id: string): int {
    RefCount(s, id) - |Claimants(s, id)|
  }

  /** Staging for a claim that is already known. */
  predicate Restages(s: State, e: Event) {
    e.Stage? && e.req.claim in s.claims
  }

  /** Staging that records its claim but gets no memory. */
  predicate FailsToAllocate(s: State, e: Event) {
    e.Stage? && Id(e.req) !in s.table && !e.answer.allocation.Allocated?
  }

  /** How one step moves the surplus of `id`. */
  function Drift(s: State, e: Event, id: string): int {
    (if Restages(s, e) && s.claims[e.req.claim] == id then 1 else 0)
    - (if FailsToAllocate(s, e) && Id(e.req) == id then 1 else 0)
    + (if e.Unstage? && e.claim in s.claims && s.claims[e.claim] == id && id !in s.table then 1 else 0)
  }

  lemma ClaimantsAfter(s: State, t: State, c: string, id: string)
    requires forall d :: d != c ==> (d in t.claims <==> d in s.claims)
    requires forall d :: d != c && d in s.claims ==> t.claims[d] == s.claims[d]
    ensures |Claimants(t, id)| - (if c in Claimants(t, id) then 1 else 0)
         == |Claimants(s, id)| - (if c in Claimants(s, id) then 1 else 0)
  {
    hide *;
    OtherClaimants(s, t, c, id);
    SizeWithout(Claimants(t, id), c);
    SizeWithout(Claimants(s, id), c);
  }

  lemma OtherClaimants(s: State, t: State, c: string, id: string)
    requires forall d :: d != c ==> (d in t.claims <==> d in s.claims)
    requires forall d :: d != c && d in s.claims ==> t.claims[d] == s.claims[d]
    ensures Claimants(t, id) - {c} == Claimants(s, id) - {c}
  {}

  lemma SizeWithout(a: set<string>, c: string)
    ensures |a - {c}| == |a| - if c in a then 1 else 0
  {
    if c !in a {
      assert a - {c} == a;
    }
  }

  /** The ledger: re-staging a known claim is the only way to gain a surplus on a live buffer, and a
      failed allocation the only way to lose one. */
  lemma SurplusStep(s: State, e: Event, id: string)
    requires Sound(s) && Tree(s) && Possible(s, e) && WellNamed(e) && IsStagedId(id)
    ensures Surplus(Next(s, e), id) == Surplus(s, id) + Drift(s, e, id)
  {
    match e
    case Stage(req, answer) => SurplusStage(s, req, answer, id);
    case Unstage(claim, unmapped) => SurplusUnstage(s, claim, unmapped, id);
    case RequestFd(fdId, gpu, answer) => SurplusFd(s, fdId, gpu, answer, id);
    case Overwrite(_, _) =>
      assert Claimants(Next(s, e), id) == Claimants(s, id);
  }

  lemma SurplusStage(s: State, req: StageRequest, answer: StageAnswer, id: string)
    requires Tree(s) && Free('_', req.buffer) && IsStagedId(id)
    ensures Surplus(StageNext(s, req, answer), id) == Surplus(s, id) + Drift(s, Stage(req, answer), id)
  {
    IdIsStaged(req);
    SurplusUnder(s, Id(req), req.claim, StagedSize(req), StagedGpu(req, answer), answer, id);
  }

  lemma SurplusUnder(s: State, staged: string, claim: string, size: nat, gpu: int, answer: StageAnswer, id: string)
    requires Tree(s) && IsStagedId(staged) && IsStagedId(id)
    ensures Surplus(StageUnder(s, staged, claim, size, gpu, answer), id) == Surplus(s, id)
            + (if claim in s.claims && s.claims[claim] == id then 1 else 0)
            - (if staged == id && id !in s.table && !answer.allocation.Allocated? then 1 else 0)
  {
    if staged in s.table {
      StagedIsCounted(s, staged);
    }
    StageRefCount(s, staged, claim, size, gpu, answer, id);
    hide StageUnder, Tree;
    ClaimantsAfter(s, StageUnder(s, staged, claim, size, gpu, answer), claim, id);
  }

  lemma StageRefCount(s: State, staged: string, claim: string, size: nat, gpu: int, answer: StageAnswer, id: string)
    requires staged in s.table ==> s.table[staged].refCount.Some?
    ensures RefCount(StageUnder(s, staged, claim, size, gpu, answer), id) == RefCount(s, id)
            + if staged == id && (id in s.table || answer.allocation.Allocated?) then 1 else 0
    ensures StageUnder(s, staged, claim, size, gpu, answer).claims == s.claims[claim := staged]
  {}

  lemma SurplusUnstage(s: State, claim: string, unmapped: set<nat>, id: string)
    requires Tree(s) && IsStagedId(id)
    ensures Surplus(UnstageNext(s, claim, unmapped), id) == Surplus(s, id) + Drift(s, Unstage(claim, unmapped), id)
  {
    ClaimantsAfter(s, UnstageNext(s, claim, unmapped), claim, id);
    if claim in s.claims {
      UnstageRefCount(s, claim, unmapped, id);
    }
  }

  lemma UnstageRefCount(s: State, claim: string, unmapped: set<nat>, id: string)
    requires Tree(s) && IsStagedId(id) && claim in s.claims
    ensures RefCount(UnstageNext(s, claim, unmapped), id)
         == RefCount(s, id) - if s.claims[claim] == id && id in s.table then 1 else 0
  {
    if s.claims[claim] in s.table {
      StagedIsCounted(s, s.claims[claim]);
      ReleaseSparesOthers(s, s.claims[claim], id);
    }
  }

  lemma SurplusFd(s: State, fdId: string, gpu: int, answer: Allocation, id: string)
    requires Sound(s) && Tree(s) && Possible(s, RequestFd(fdId, gpu, answer)) && IsStagedId(id)
    ensures Surplus(FdNext(s, fdId, gpu, answer), id) == Surplus(s, id)
  {
    assert Claimants(FdNext(s, fdId, gpu, answer), id) == Claimants(s, id);
    if NeedsCopy(s, fdId, gpu) {
      RelocationKeyUnique(fdId, gpu, id, 0);
    }
  }

  lemma ReleaseSparesOthers(s: State, released: string, id: string)
    requires Tree(s) && released in s.table && IsStagedId(released) && IsStagedId(id)
    ensures id in Related(s, released) <==> id == released
  {
    ReleaseSelects(released, id, 0);
  }

  ghost function TotalDrift(s: State, es: seq<Event>, id: string): int
    requires Sound(s) && PossibleRun(s, es)
    decreases es
  {
    if es == [] then 0 else
    SoundStep(s, es[0]);
    Drift(s, es[0], id) + TotalDrift(Next(s, es[0]), es[1..], id)
  }

  /** Over every run the count of a buffer is its claims plus the drift of the run's steps. */
  lemma {:induction false} Ledger(s: State, es: seq<Event>, id: string)
    requires Sound(s) && Tree(s) && PossibleRun(s, es) && IsStagedId(id)
    ensures Surplus(Run(s, es), id) == Surplus(s, id) + TotalDrift(s, es, id)
    decreases es
  {
    if es != [] {
      SoundStep(s, es[0]);
      TreeStep(s, es[0]);
      SurplusStep(s, es[0], id);
      Ledger(Next(s, es[0]), es[1..], id);
    }
  }

  lemma {:induction false} DriftWithoutFailures(s: State, es: seq<Event>, id: string)
    requires Sound(s) && Tree(s) && PossibleRun(s, es)
    requires Throughout(s, es, (t, e) => !FailsToAllocate(t, e))
    ensures TotalDrift(s, es, id) >= 0
    decreases es
  {
    if es != [] {
      SoundStep(s, es[0]);
      TreeStep(s, es[0]);
      DriftWithoutFailures(Next(s, es[0]), es[1..], id);
    }
  }

  lemma EmptyIsSound(gran: nat)
    requires gran > 0
    ensures Sound(Empty(gran)) && Tree(Empty(gran))
  {}

  lemma ClaimIsCounted(s: State, c: string)
    requires c in s.claims
    ensures |Claimants(s, s.claims[c])| >= 1
  {
    assert c in Claimants(s, s.claims[c]);
  }

  /** While every allocation succeeds, even with re-staged claims, each count covers its claims, so
      every claim's buffer is live. */
  lemma ClaimedBuffersAreLive(gran: nat, es: seq<Event>, id: string)
    requires gran > 0 && IsStagedId(id)
    requires Sound(Empty(gran)) && PossibleRun(Empty(gran), es)
    requires Throughout(Empty(gran), es, (t, e) => !FailsToAllocate(t, e))
    ensures var s := Run(Empty(gran), es);
            RefCount(s, id) >= |Claimants(s, id)| && (Claimants(s, id) != {} ==> id in s.table)
  {
    EmptyIsSound(gran);
    Ledger(Empty(gran), es, id);
    DriftWithoutFailures(Empty(gran), es, id);
    assert Claimants(Empty(gran), id) == {};
  }

  lemma {:induction false} NoSurplusWithoutRestaging(s: State, es: seq<Event>, id: string)
    requires Sound(s) && Tree(s) && PossibleRun(s, es) && IsStagedId(id)
    requires Throughout(s, es, (t, e) => !Restages(t, e))
    requires Surplus(s, id) <= 0
    ensures Surplus(Run(s, es), id) <= 0
    decreases es
  {
    if es != [] {
      SoundStep(s, es[0]);
      TreeStep(s, es[0]);
      SurplusStep(s, es[0], id);
      assert es[0].Unstage? && id !in s.table ==> id !in Next(s, es[0]).table;
      NoSurplusWithoutRestaging(Next(s, es[0]), es[1..], id);
    }
  }

  /** Without re-staging nothing outlives its claims: when no claim is left, neither is any entry. */
  lemma NoClaimsNoBuffers(gran: nat, es: seq<Event>)
    requires gran > 0
    requires Sound(Empty(gran)) && PossibleRun(Empty(gran), es)
    requires Throughout(Empty(gran), es, (t, e) => !Restages(t, e))
    ensures var s := Run(Empty(gran), es); s.claims == map[] ==> s.table == map[]
  {
    EmptyIsSound(gran);
    var s := Run(Empty(gran), es);
    RunKeepsInvariants(Empty(gran), es);
    if s.claims == map[] {
      forall k | k in s.table
        ensures false
      {
        assert WellFormed(s, k);
        var id :| id in s.table && IsStagedId(id) && s.table[id].refCount.Some?;
        StagedIsCounted(s, id);
        assert Claimants(Empty(gran), id) == {} && Claimants(s, id) == {};
        NoSurplusWithoutRestaging(Empty(gran), es, id);
      }
    }
  }

  /** Without failed allocations and re-staging no step moves a surplus that is not negative. */
  lemma {:induction false} BalancedRun(s: State, es: seq<Event>, id: string)
    requires Sound(s) && Tree(s) && PossibleRun(s, es) && IsStagedId(id) && Surplus(s, id) >= 0
    requires Throughout(s, es, (t, e) => !FailsToAllocate(t, e) && !Restages(t, e))
    ensures Surplus(Run(s, es), id) == Surplus(s, id)
    decreases es
  {
    if es != [] {
      SoundStep(s, es[0]);
      TreeStep(s, es[0]);
      SurplusStep(s, es[0], id);
      if es[0].Unstage? && es[0].claim in s.claims {
        ClaimIsCounted(s, es[0].claim);
      }
      BalancedRun(Next(s, es[0]), es[1..], id);
    }
  }

  /** So a run that ends with the claims it started with (prepare, then unprepare) leaves every reference
      count as it was. */
  lemma SameClaimsSameCounts(s: State, es: seq<Event>, id: string)
    requires Sound(s) && Tree(s) && PossibleRun(s, es) && IsStagedId(id) && Surplus(s, id) >= 0
    requires Throughout(s, es, (t, e) => !FailsToAllocate(t, e) && !Restages(t, e))
    requires Run(s, es).claims == s.claims
    ensures RefCount(Run(s, es), id) == RefCount(s, id) && (id in Run(s, es).table <==> id in s.table)
  {
    BalancedRun(s, es, id);
    RunKeepsInvariants(s, es);
    assert Claimants(Run(s, es), id) == Claimants(s, id);
    TrackedIffCounted(s, id);
    TrackedIffCounted(Run(s, es), id);
  }

  lemma TrackedIffCounted(s: State, id: string)
    requires Tree(s) && IsStagedId(id)
    ensures id in s.table <==> RefCount(s, id) >= 1
  {
    if id in s.table {
      StagedIsCounted(s, id);
    }
  }

  /** When allocations succeed and no known claim is re-staged, counts equal claims, so a buffer is
      tracked exactly as long as some claim maps to it. */
  lemma CountsEqualClaims(gran: nat, es: seq<Event>, id: string)
    requires gran > 0 && IsStagedId(id)
    requires Sound(Empty(gran)) && PossibleRun(Empty(gran), es)
    requires Throughout(Empty(gran), es, (t, e) => !FailsToAllocate(t, e) && !Restages(t, e))
    ensures var s := Run(Empty(gran), es);
            RefCount(s, id) == |Claimants(s, id)| && (id in s.table <==> Claimants(s, id) != {})
  {
    EmptyIsSound(gran);
    RunKeepsInvariants(Empty(gran), es);
    assert Claimants(Empty(gran), id) == {};
    BalancedRun(Empty(gran), es, id);
    TrackedIffCounted(Run(Empty(gran), es), id);
  }

  /** Exactly when an unstage frees a buffer that another claim still maps to: its last reference
      goes while the surplus is negative, which takes an earlier failed allocation. */
  lemma FreedWhileClaimed(s: State, claim: string, unmapped: set<nat>, id: string)
    requires Sound(s) && Tree(s) && IsStagedId(id) && id in s.table
    ensures var t := UnstageNext(s, claim, unmapped);
            id !in t.table && Claimants(t, id) != {} <==>
            claim in s.claims && s.claims[claim] == id && RefCount(s, id) == 1 && Surplus(s, id) < 0
  {
    var e := Unstage(claim, unmapped);
    var t := UnstageNext(s, claim, unmapped);
    StagedIsCounted(s, id);
    SurplusStep(s, e, id);
    if claim in s.claims && s.claims[claim] in s.table {
      ReleaseSparesOthers(s, s.claims[claim], id);
    }
    assert Claimants(t, id) == {} <==> |Claimants(t, id)| == 0;
  }

  /** What the condition on allocations excludes: the claim is recorded before the allocation, so when it
      fails for one claim and then succeeds for another, unstaging the first frees the buffer of the second. */
  lemma FailedAllocationFreesClaimedBuffer(s: State, r1: StageRequest, a1: StageAnswer, r2: StageRequest,
                                           a2: StageAnswer, unmapped: set<nat>)
    requires Id(r1) == Id(r2) && Id(r1) !in s.table && r1.claim != r2.claim
    requires !a1.allocation.Allocated? && a2.allocation.Allocated?
    ensures var t := UnstageNext(StageNext(StageNext(s, r1, a1), r2, a2), r1.claim, unmapped);
            r2.claim in t.claims && t.claims[r2.claim] == Id(r2) && Id(r2) !in t.table
  {
    ReleaseOfLast(StageUnder(StageUnder(s, Id(r1), r1.claim, StagedSize(r1), StagedGpu(r1, a1), a1),
                             Id(r1), r2.claim, StagedSize(r2), StagedGpu(r2, a2), a2), r1.claim, unmapped);
  }

  lemma ReleaseOfLast(s: State, claim: string, unmapped: set<nat>)
    requires claim in s.claims && RefCount(s, s.claims[claim]) == 1
    ensures s.claims[claim] !in UnstageNext(s, claim, unmapped).table
    ensures UnstageNext(s, claim, unmapped).claims == s.claims - {claim}
  {}

  /** Exactly when an unstage leaves a buffer that no claim maps to any more: it takes the last claim of a
      buffer with a surplus. */
  lemma LeftWithoutClaim(s: State, claim: string, unmapped: set<nat>)
    requires Sound(s) && Tree(s) && claim in s.claims
    ensures var t, id := UnstageNext(s, claim, unmapped), s.claims[claim];
            id in t.table && Claimants(t, id) == {} <==> |Claimants(s, id)| == 1 && Surplus(s, id) > 0
  {
    var t, id := UnstageNext(s, claim, unmapped), s.claims[claim];
    SurplusStep(s, Unstage(claim, unmapped), id);
    TreeUnstage(s, claim, unmapped);
    TrackedIffCounted(s, id);
    TrackedIffCounted(t, id);
    ClaimantsAfter(s, t, claim, id);
    assert Claimants(t, id) == {} <==> |Claimants(t, id)| == 0;
  }

  /** The leak of a re-staged claim: staged twice and unstaged once, the buffer stays although no claim maps to it. */
  lemma RestagedClaimLeaksBuffer(s: State, r: StageRequest, a1: StageAnswer, a2: StageAnswer, unmapped: set<nat>)
    requires Id(r) !in s.table && Claimants(s, Id(r)) == {} && a1.allocation.Allocated?
    ensures var t := UnstageNext(StageNext(StageNext(s, r, a1), r, a2), r.claim, unmapped);
            Claimants(t, Id(r)) == {} && Id(r) in t.table
  {
    var id := Id(r);
    var u := StageUnder(StageUnder(s, id, r.claim, StagedSize(r), StagedGpu(r, a1), a1),
                        id, r.claim, StagedSize(r), StagedGpu(r, a2), a2);
    assert RefCount(u, id) == 2 && u.claims == s.claims[r.claim := id];
    assert forall c :: c in Claimants(s, id) <==> c in s.claims && s.claims[c] == id;
  }

  /** Over every run, a buffer is tracked exactly when its claims and the run's drift add up to more than none: so a
      positive drift keeps a buffer beyond its claims, and a negative one takes it from them. */
  lemma {:induction false} OutlivesClaimsIff(gran: nat, es: seq<Event>, id: string)
    requires gran > 0 && IsStagedId(id)
    requires Sound(Empty(gran)) && PossibleRun(Empty(gran), es)
    ensures var t := Run(Empty(gran), es);
            id in t.table <==> |Claimants(t, id)| + TotalDrift(Empty(gran), es, id) > 0
  {
    EmptyIsSound(gran);
    RunKeepsInvariants(Empty(gran), es);
    Ledger(Empty(gran), es, id);
    assert Claimants(Empty(gran), id) == {};
    TrackedIffCounted(Run(Empty(gran), es), id);
  }

  /** How often the run stages a known claim that maps to `id`. */
  ghost function Restagings(s: State, es: seq<Event>, id: string): nat
    requires Sound(s) && PossibleRun(s, es)
    decreases es
  {
    if es == [] then 0 else
    SoundStep(s, es[0]);
    Restagings(Next(s, es[0]), es[1..], id) + if Restages(s, es[0]) && s.claims[es[0].req.claim] == id then 1 else 0
  }

  lemma {:induction false} DriftIsRestagings(s: State, es: seq<Event>, id: string)
    requires Sound(s) && Tree(s) && PossibleRun(s, es) && IsStagedId(id) && Surplus(s, id) >= 0
    requires Throughout(s, es, (t, e) => !FailsToAllocate(t, e))
    ensures TotalDrift(s, es, id) == Restagings(s, es, id)
    decreases es
  {
    if es != [] {
      SoundStep(s, es[0]);
      TreeStep(s, es[0]);
      SurplusStep(s, es[0], id);
      if es[0].Unstage? && es[0].claim in s.claims {
        ClaimIsCounted(s, es[0].claim);
      }
      DriftIsRestagings(Next(s, es[0]), es[1..], id);
    }
  }

  /** While allocations succeed, a count is the claims plus the re-stagings of the run, so a buffer outlives
      its claims exactly when a claim that mapped to it was staged again. */
  lemma CountsClaimsAndRestagings(gran: nat, es: seq<Event>, id: string)
    requires gran > 0 && IsStagedId(id)
    requires Sound(Empty(gran)) && PossibleRun(Empty(gran), es)
    requires Throughout(Empty(gran), es, (t, e) => !FailsToAllocate(t, e))
    ensures var s, n := Run(Empty(gran), es), Restagings(Empty(gran), es, id);
            RefCount(s, id) == |Claimants(s, id)| + n && (Claimants(s, id) == {} ==> (id in s.table <==> n > 0))
  {
    EmptyIsSound(gran);
    RunKeepsInvariants(Empty(gran), es);
    Ledger(Empty(gran), es, id);
    assert Claimants(Empty(gran), id) == {};
    DriftIsRestagings(Empty(gran), es, id);
    TrackedIffCounted(Run(Empty(gran), es), id);
  }

  // ----- The engine: all workers of a host share one claim -----

  /** Each worker stages, later each unstages, all for the engine's one claim. */
  function EngineRun(r: StageRequest, answers: seq<StageAnswer>, frees: seq<set<nat>>): seq<Event>
    decreases |answers| + |frees|
  {
    if answers != [] then [Stage(r, answers[0])] + EngineRun(r, answers[1..], frees)
    else if frees != [] then [Unstage(r.claim, frees[0])] + EngineRun(r, answers, frees[1..])
    else []
  }

  lemma {:induction false} LateUnstages(s: State, r: StageRequest, frees: seq<set<nat>>)
    requires Sound(s) && r.claim !in s.claims && PossibleRun(s, EngineRun(r, [], frees))
    ensures Run(s, EngineRun(r, [], frees)) == s
    decreases |frees|
  {
    if frees != [] {
      assert EngineRun(r, [], frees)[1..] == EngineRun(r, [], frees[1..]);
      LateUnstages(s, r, frees[1..]);
    }
  }

  lemma {:induction false} EngineCounts(s: State, r: StageRequest, answers: seq<StageAnswer>, frees: seq<set<nat>>)
    requires Sound(s) && Tree(s) && PossibleRun(s, EngineRun(r, answers, frees)) && frees != []
    requires r.claim in s.claims && s.claims[r.claim] == Id(r) && RefCount(s, Id(r)) >= 1 && IsStagedId(Id(r))
    ensures RefCount(Run(s, EngineRun(r, answers, frees)), Id(r)) == RefCount(s, Id(r)) + |answers| - 1
    decreases |answers|
  {
    var es := EngineRun(r, answers, frees);
    SoundStep(s, es[0]);
    if answers != [] {
      TreeStep(s, es[0]);
      assert es[1..] == EngineRun(r, answers[1..], frees);
      StageRefCount(s, Id(r), r.claim, StagedSize(r), StagedGpu(r, answers[0]), answers[0], Id(r));
      EngineCounts(Next(s, es[0]), r, answers[1..], frees);
    } else {
      assert es[1..] == EngineRun(r, [], frees[1..]);
      UnstageRefCount(s, r.claim, frees[0], Id(r));
      LateUnstages(Next(s, es[0]), r, frees[1..]);
    }
  }

  lemma {:induction false} EngineForgets(s: State, r: StageRequest, answers: seq<StageAnswer>, frees: seq<set<nat>>)
    requires Sound(s) && PossibleRun(s, EngineRun(r, answers, frees)) && frees != []
    ensures r.claim !in Run(s, EngineRun(r, answers, frees)).claims
    decreases |answers|
  {
    var es := EngineRun(r, answers, frees);
    SoundStep(s, es[0]);
    if answers != [] {
      assert es[1..] == EngineRun(r, answers[1..], frees);
      EngineForgets(Next(s, es[0]), r, answers[1..], frees);
    } else {
      assert es[1..] == EngineRun(r, [], frees[1..]);
      LateUnstages(Next(s, es[0]), r, frees[1..]);
    }
  }

  lemma FirstStage(s: State, r: StageRequest, answer: StageAnswer)
    requires Sound(s) && Tree(s) && Possible(s, Stage(r, answer)) && Free('_', r.buffer)
    requires Id(r) !in s.table && answer.allocation.Allocated?
    ensures var t := Next(s, Stage(r, answer));
            && Sound(t) && Tree(t) && IsStagedId(Id(r))
            && r.claim in t.claims && t.claims[r.claim] == Id(r) && RefCount(t, Id(r)) == 1
  {
    IdIsStaged(r);
    SoundStage(s, r, answer);
    TreeStage(s, r, answer);
    StageRefCount(s, Id(r), r.claim, StagedSize(r), StagedGpu(r, answer), answer, Id(r));
  }

  lemma {:induction false} EngineRest(s: State, r: StageRequest, answers: seq<StageAnswer>, frees: seq<set<nat>>)
    requires Sound(s) && Tree(s) && PossibleRun(s, EngineRun(r, answers, frees)) && frees != []
    requires r.claim in s.claims && s.claims[r.claim] == Id(r) && RefCount(s, Id(r)) == 1 && IsStagedId(Id(r))
    ensures var t := Run(s, EngineRun(r, answers, frees));
            r.claim !in t.claims && RefCount(t, Id(r)) == |answers| && (Id(r) in t.table <==> |answers| > 0)
  {
    EngineCounts(s, r, answers, frees);
    EngineForgets(s, r, answers, frees);
    RunKeepsInvariants(s, EngineRun(r, answers, frees));
    TrackedIffCounted(Run(s, EngineRun(r, answers, frees)), Id(r));
  }

  /** The claim of the engine defaults to its buffer id, so all workers of a host stage the same claim: when as
      many unstage, the first one gives the claim back, and one reference per further worker stays for ever. */
  lemma {:induction false} EngineLeavesReferences(s: State, r: StageRequest, answers: seq<StageAnswer>,
                                                  frees: seq<set<nat>>)
    requires Sound(s) && Tree(s) && PossibleRun(s, EngineRun(r, answers, frees))
    requires Id(r) !in s.table && answers != [] && answers[0].allocation.Allocated? && |frees| == |answers|
    ensures var t := Run(s, EngineRun(r, answers, frees));
            r.claim !in t.claims && RefCount(t, Id(r)) == |answers| - 1 && (Id(r) in t.table <==> |answers| > 1)
  {
    var e := Stage(r, answers[0]);
    RunFrom(s, e, EngineRun(r, answers[1..], frees));
    FirstStage(s, r, answers[0]);
    EngineRest(Next(s, e), r, answers[1..], frees);
  }

  // ----- Conservation of handles and descriptors -----

  ghost predicate HasHandle(table: map<string, Entry>, h: nat) {
    exists k :: k in table && table[k].handle == h
  }

  ghost predicate HasFd(table: map<string, Entry>, f: nat) {
    exists k :: k in table && table[k].fd == f
  }

  /** Every live handle and every open descriptor is tracked. */
  ghost predicate NoLeak(s: State) {
    && (forall h :: h in s.memory ==> HasHandle(s.table, h))
    && (forall f :: f in s.fds ==> HasFd(s.table, f))
  }

  /** With soundness: live handles and open descriptors are exactly those of the table. */
  lemma Conserved(s: State)
    requires Sound(s) && NoLeak(s)
    ensures s.memory.Keys == HandlesOf(s, s.table.Keys) && s.fds.Keys == FdsOf(s, s.table.Keys)
  {
    assert forall k :: k in s.table ==> Backed(s, s.table[k]);
    assert forall h :: h in s.memory ==> HasHandle(s.table, h);
    assert forall f :: f in s.fds ==> HasFd(s.table, f);
  }

  /** The keys that this step frees. */
  function Released(s: State, e: Event): set<string> {
    if e.Unstage? && e.claim in s.claims && RefCount(s, s.claims[e.claim]) == 1
    then Related(s, s.claims[e.claim]) else {}
  }

  /** The step loses no allocation: all frees succeed, and no staging and no relocation raises after the
      memory was created. */
  predicate LosesNothing(s: State, e: Event) {
    && HandlesOf(s, Released(s, e)) <= (if e.Unstage? then e.unmapped else {})
    && !(e.Stage? && Id(e.req) !in s.table && e.answer.allocation.Spoiled?)
    && !(e.RequestFd? && NeedsCopy(s, e.id, e.gpu) && e.copied.Spoiled?)
  }

  /** What a half-way attempt leaves is tracked by no entry. */
  lemma LitterLeaks(s: State, gpu: int, spent: Spent)
    requires Sound(s) && spent.handle !in s.memory
    ensures !NoLeak(Littered(s, gpu, spent))
  {
    assert forall k :: k in s.table ==> Backed(s, s.table[k]);
    assert spent.handle in Littered(s, gpu, spent).memory && !HasHandle(s.table, spent.handle);
  }

  lemma NoLeakDiscard(s: State, keys: set<string>, unmapped: set<nat>)
    requires Sound(s) && NoLeak(s) && keys <= s.table.Keys
    ensures NoLeak(Discard(s, keys, unmapped)) <==> HandlesOf(s, keys) <= unmapped
  {
    var t := Discard(s, keys, unmapped);
    forall f | f in t.fds
      ensures HasFd(t.table, f)
    {
      assert HasFd(s.table, f);
      var k :| k in s.table && s.table[k].fd == f;
      assert k in t.table;
    }
    forall h | h in s.memory && h !in HandlesOf(s, keys)
      ensures HasHandle(t.table, h)
    {
      assert HasHandle(s.table, h);
      var k :| k in s.table && s.table[k].handle == h;
      assert k in t.table;
    }
    forall k | k in keys
      ensures !HasHandle(t.table, s.table[k].handle)
    {}
  }

  lemma NoLeakTrack(s: State, k: string, e: Entry, bytes: seq<Byte>)
    requires NoLeak(s) && k !in s.table
    ensures NoLeak(Track(s, k, e, bytes))
  {
    var t := Track(s, k, e, bytes);
    NoLeakGrows(s, t);
    assert k in t.table && t.table[k] == e;
  }

  lemma NoLeakGrows(s: State, t: State)
    requires s.table.Keys <= t.table.Keys
    requires forall k :: k in s.table ==> t.table[k].handle == s.table[k].handle && t.table[k].fd == s.table[k].fd
    ensures forall h :: HasHandle(s.table, h) ==> HasHandle(t.table, h)
    ensures forall f :: HasFd(s.table, f) ==> HasFd(t.table, f)
  {}

  lemma NoLeakSameHandles(s: State, t: State)
    requires s.table.Keys == t.table.Keys && s.memory.Keys == t.memory.Keys && s.fds.Keys == t.fds.Keys
    requires forall k :: k in s.table ==> t.table[k].handle == s.table[k].handle && t.table[k].fd == s.table[k].fd
    ensures NoLeak(t) <==> NoLeak(s)
  {
    NoLeakGrows(s, t);
    NoLeakGrows(t, s);
  }

  /** Conservation survives a step exactly when the step loses nothing. */
  lemma ConservationStep(s: State, e: Event)
    requires Sound(s) && Tree(s) && NoLeak(s) && Possible(s, e) && WellNamed(e)
    ensures NoLeak(Next(s, e)) <==> LosesNothing(s, e)
  {
    match e
    case Stage(req, answer) => ConservationStage(s, req, answer);
    case Unstage(claim, unmapped) => ConservationUnstage(s, claim, unmapped);
    case RequestFd(id, gpu, answer) => ConservationFd(s, id, gpu, answer);
    case Overwrite(_, _) => NoLeakSameHandles(s, Next(s, e));
  }

  lemma ConservationStage(s: State, req: StageRequest, answer: StageAnswer)
    requires Sound(s) && NoLeak(s) && Possible(s, Stage(req, answer))
    ensures NoLeak(StageNext(s, req, answer)) <==> LosesNothing(s, Stage(req, answer))
  {
    var s1 := s.(claims := s.claims[req.claim := Id(req)]);
    if Id(req) !in s.table && answer.allocation.Spoiled? {
      LitterLeaks(s1, StagedGpu(req, answer), answer.allocation.spent);
    } else {
      NoLeakStage(s, Id(req), req.claim, StagedSize(req), StagedGpu(req, answer), answer);
    }
  }

  lemma NoLeakStage(s: State, id: string, claim: string, size: nat, gpu: int, answer: StageAnswer)
    requires NoLeak(s) && (id !in s.table ==> !answer.allocation.Spoiled?)
    ensures NoLeak(StageUnder(s, id, claim, size, gpu, answer))
  {
    var t := StageUnder(s, id, claim, size, gpu, answer);
    NoLeakGrows(s, t);
    if id !in s.table && answer.allocation.Allocated? {
      assert id in t.table && t.table[id].handle == answer.allocation.alloc.handle;
    }
  }

  lemma ConservationUnstage(s: State, claim: string, unmapped: set<nat>)
    requires Sound(s) && Tree(s) && NoLeak(s)
    ensures NoLeak(UnstageNext(s, claim, unmapped)) <==> LosesNothing(s, Unstage(claim, unmapped))
  {
    if claim in s.claims && s.claims[claim] in s.table {
      var id := s.claims[claim];
      StagedIsCounted(s, id);
      if RefCount(s, id) == 1 {
        ConservationRelease(s, claim, unmapped);
      } else {
        NoLeakSameHandles(s, UnstageNext(s, claim, unmapped));
      }
    }
  }

  lemma ConservationRelease(s: State, claim: string, unmapped: set<nat>)
    requires Sound(s) && NoLeak(s) && claim in s.claims && RefCount(s, s.claims[claim]) == 1
    ensures NoLeak(UnstageNext(s, claim, unmapped)) <==> HandlesOf(s, Related(s, s.claims[claim])) <= unmapped
  {
    var keys := Related(s, s.claims[claim]);
    NoLeakDiscard(s, keys, unmapped);
    var t, u := UnstageNext(s, claim, unmapped), Discard(s, keys, unmapped);
    assert t.table == u.table && t.memory == u.memory && t.fds == u.fds;
  }

  lemma ConservationFd(s: State, id: string, gpu: int, answer: Allocation)
    requires Sound(s) && NoLeak(s) && Possible(s, RequestFd(id, gpu, answer))
    ensures NoLeak(FdNext(s, id, gpu, answer)) <==> LosesNothing(s, RequestFd(id, gpu, answer))
  {
    if NeedsCopy(s, id, gpu) {
      match answer
      case NoMemory =>
      case Spoiled(spent) => LitterLeaks(s, gpu, spent);
      case Allocated(a) =>
        var e := s.table[id];
        assert Backed(s, e);
        RoundUpBounds(e.size, s.gran);
        NoLeakTrack(s, RelocationKey(id, gpu), Entry(a.handle, a.fd, e.size, gpu, None),
                       HalfCopy(s.memory[e.handle].bytes, a.bytes, e.size));
    }
  }

  // ----- Nothing that is lost comes back -----

  /** A live handle, or an open descriptor, that no entry has. */
  ghost predicate Stray(s: State, handle: bool, x: nat) {
    if handle then x in s.memory && !HasHandle(s.table, x) else x in s.fds && !HasFd(s.table, x)
  }

  lemma LeakIsStray(s: State) returns (handle: bool, x: nat)
    requires !NoLeak(s)
    ensures Stray(s, handle, x)
  {
    if h :| h in s.memory && !HasHandle(s.table, h) {
      return true, h;
    }
    x :| x in s.fds && !HasFd(s.table, x);
    handle := false;
  }

  lemma StrayTracked(s: State, k: string, e: Entry, bytes: seq<Byte>, handle: bool, x: nat)
    requires Stray(s, handle, x) && e.handle !in s.memory && e.fd !in s.fds
    ensures Stray(Track(s, k, e, bytes), handle, x)
  {
    var t := Track(s, k, e, bytes);
    forall k' | k' in t.table
      ensures if handle then t.table[k'].handle != x else t.table[k'].fd != x
    {
      assert k' != k ==> k' in s.table && t.table[k'] == s.table[k'];
    }
  }

  lemma StrayKept(s: State, t: State, handle: bool, x: nat)
    requires Stray(s, handle, x)
    requires forall k :: k in t.table ==>
                           k in s.table && t.table[k].handle == s.table[k].handle && t.table[k].fd == s.table[k].fd
    requires handle ==> x in t.memory
    requires !handle ==> x in t.fds
    ensures Stray(t, handle, x)
  {}

  lemma StrayStays(s: State, e: Event, handle: bool, x: nat)
    requires Sound(s) && Tree(s) && Possible(s, e) && Stray(s, handle, x)
    ensures Stray(Next(s, e), handle, x)
  {
    match e
    case Stage(req, answer) =>
      StrayUnder(s, Id(req), req.claim, StagedSize(req), StagedGpu(req, answer), answer, handle, x);
    case Unstage(claim, unmapped) => StrayUnstage(s, claim, unmapped, handle, x);
    case RequestFd(id, gpu, answer) => StrayFd(s, id, gpu, answer, handle, x);
    case Overwrite(_, _) => StrayKept(s, Next(s, e), handle, x);
  }

  lemma StrayUnder(s: State, id: string, claim: string, size: nat, gpu: int, answer: StageAnswer, handle: bool, x: nat)
    requires Stray(s, handle, x)
    requires id !in s.table && answer.allocation.Allocated? ==>
               answer.allocation.alloc.handle !in s.memory && answer.allocation.alloc.fd !in s.fds
    ensures Stray(StageUnder(s, id, claim, size, gpu, answer), handle, x)
  {
    var s1, t := s.(claims := s.claims[claim := id]), StageUnder(s, id, claim, size, gpu, answer);
    if id !in s.table && answer.allocation.Allocated? {
      var a := answer.allocation.alloc;
      StrayTracked(s1, id, Entry(a.handle, a.fd, size, gpu, Some(1)), a.bytes, handle, x);
      StrayKept(Track(s1, id, Entry(a.handle, a.fd, size, gpu, Some(1)), a.bytes), t, handle, x);
    } else {
      StrayKept(s, t, handle, x);
    }
  }

  lemma StrayUnstage(s: State, claim: string, unmapped: set<nat>, handle: bool, x: nat)
    requires Sound(s) && Tree(s) && Stray(s, handle, x)
    ensures Stray(UnstageNext(s, claim, unmapped), handle, x)
  {
    if claim in s.claims && s.claims[claim] in s.table {
      var keys := Related(s, s.claims[claim]);
      assert handle ==> x !in HandlesOf(s, keys);
      assert !handle ==> x !in FdsOf(s, keys);
    }
    StrayKept(s, UnstageNext(s, claim, unmapped), handle, x);
  }

  lemma StrayFd(s: State, id: string, gpu: int, answer: Allocation, handle: bool, x: nat)
    requires Sound(s) && Possible(s, RequestFd(id, gpu, answer)) && Stray(s, handle, x)
    ensures Stray(FdNext(s, id, gpu, answer), handle, x)
  {
    if NeedsCopy(s, id, gpu) && answer.Allocated? {
      var e, a := s.table[id], answer.alloc;
      assert Backed(s, e);
      RoundUpBounds(e.size, s.gran);
      StrayTracked(s, RelocationKey(id, gpu), Entry(a.handle, a.fd, e.size, gpu, None),
                   HalfCopy(s.memory[e.handle].bytes, a.bytes, e.size), handle, x);
    } else {
      StrayKept(s, FdNext(s, id, gpu, answer), handle, x);
    }
  }

  /** A leak never heals. */
  lemma LeakStays(s: State, e: Event)
    requires Sound(s) && Tree(s) && Possible(s, e) && !NoLeak(s)
    ensures !NoLeak(Next(s, e))
  {
    var handle, x := LeakIsStray(s);
    StrayStays(s, e, handle, x);
  }

  lemma {:induction false} LeakStaysForever(s: State, es: seq<Event>)
    requires Sound(s) && Tree(s) && PossibleRun(s, es) && !NoLeak(s)
    ensures !NoLeak(Run(s, es))
    decreases es
  {
    if es != [] {
      SoundStep(s, es[0]);
      TreeStep(s, es[0]);
      LeakStays(s, es[0]);
      LeakStaysForever(Next(s, es[0]), es[1..]);
    }
  }

  /** Over every run, live handles and descriptors are in the end exactly those tracked if and only if no step of
      the run has lost anything. */
  lemma {:induction false} Conservation(s: State, es: seq<Event>)
    requires Sound(s) && Tree(s) && NoLeak(s) && PossibleRun(s, es)
    ensures NoLeak(Run(s, es)) <==> Throughout(s, es, (t, e) => LosesNothing(t, e))
    ensures Sound(Run(s, es))
    ensures NoLeak(Run(s, es)) <==> var t := Run(s, es);
                                    t.memory.Keys == HandlesOf(t, t.table.Keys) && t.fds.Keys == FdsOf(t, t.table.Keys)
    decreases es
  {
    if es == [] {
      Conserved(s);
    } else {
      SoundStep(s, es[0]);
      TreeStep(s, es[0]);
      ConservationStep(s, es[0]);
      if NoLeak(Next(s, es[0])) {
        Conservation(Next(s, es[0]), es[1..]);
      } else {
        LeakStaysForever(Next(s, es[0]), es[1..]);
        RunKeepsInvariants(Next(s, es[0]), es[1..]);
        KeysLeak(Run(Next(s, es[0]), es[1..]));
      }
    }
  }

  lemma KeysLeak(s: State)
    requires !NoLeak(s)
    ensures s.memory.Keys != HandlesOf(s, s.table.Keys) || s.fds.Keys != FdsOf(s, s.table.Keys)
  {
    var handle, x := LeakIsStray(s);
    assert if handle then x !in HandlesOf(s, s.table.Keys) else x !in FdsOf(s, s.table.Keys);
  }

  /** The handles whose free names exactly the mapped length. */
  ghost function MatchingFrees(s: State): set<nat>
    requires Sound(s)
  {
    set k | k in s.table && |s.memory[s.table[k].handle].bytes| == s.table[k].size :: s.table[k].handle
  }

  /** The driver frees the requested, not the mapped length. If CUDA unmaps only whole mappings, the
      release of a buffer gives everything back exactly when its size is a multiple of the granularity. */
  lemma ReleaseConservesIff(s: State, claim: string)
    requires Sound(s) && Tree(s) && NoLeak(s)
    requires claim in s.claims && RefCount(s, s.claims[claim]) == 1
    ensures NoLeak(UnstageNext(s, claim, MatchingFrees(s))) <==>
            s.table[s.claims[claim]].size % s.gran == 0
  {
    var id := s.claims[claim];
    var e := Unstage(claim, MatchingFrees(s));
    ConservationStep(s, e);
    RelatedExactly(s, id);
    assert Backed(s, s.table[id]);
    RoundUpBounds(s.table[id].size, s.gran);
    assert id in Released(s, e) && s.table[id].handle in HandlesOf(s, Released(s, e));
    forall k | k in Released(s, e)
      ensures s.table[k].handle in MatchingFrees(s) <==> s.table[id].size % s.gran == 0
    {
      assert Backed(s, s.table[k]);
    }
  }
}
