/**
  The pipe major-loss calculator: the Colebrook–White friction-factor loop, the
  velocity-from-head-loss loop around it, and the "Calculate" decision table that
  derives whichever of V, Q, h_f, Re and f the user did not supply.

  Numbers are reals. `sqrt` and `log10` are not defined here: they come in as a
  `MathLib` record, and the model checks their Python domain errors itself
  (`math.sqrt` raises on a negative argument, `math.log10` on a non-positive one).
  Every exception the source can raise (these two and division by zero) is an
  absent result, because the source only ever catches them all at once.
*/
module PipeFlow {
  import opened Wrappers

  /** Absolute roughness (m) per pipe material. */
  const PipeTypes: map<string, real> := map[
    "steel" := 0.00015,
    "cast iron" := 0.00026,
    "concrete" := 0.003,
    "PVC" := 0.0000015,
    "copper tubing" := 0.0000015
  ]

  /** The materials the picker offers, in table order. */
  const PipeTypeNames: seq<string> := ["steel", "cast iron", "concrete", "PVC", "copper tubing"]

  /** The picker offers exactly the keys of the roughness table, and every roughness is positive. */
  lemma PipeTypesWellFormed()
    ensures forall name :: name in PipeTypeNames <==> name in PipeTypes
    ensures forall name :: name in PipeTypes ==> 0.0 < PipeTypes[name] <= 0.003
  {
    assert PipeTypes.Keys == {"steel", "cast iron", "concrete", "PVC", "copper tubing"};
  }

  const Rho: real := 1000.0
  const Mu: real := 0.001
  const G: real := 9.81
  const Pi: real := 3.141592653589793

  const LaminarLimit: real := 2000.0
  const FrictionSeed: real := 0.02
  const Tolerance: real := 0.000001
  const MaxFrictionSteps: nat := 50
  const MaxVelocitySteps: nat := 100

  /** The two transcendental functions of Python's math module that the solver calls. */
  datatype MathLib = MathLib(sqrt: real -> real, log10: real -> real)

  /** `m.sqrt` is an exact square root on the non-negative reals. */
  ghost predicate IsSqrt(m: MathLib) {
    forall x: real {:trigger m.sqrt(x)} :: x >= 0.0 ==> m.sqrt(x) * m.sqrt(x) == x
  }

  function Abs(x: real): real { if x < 0.0 then -x else x }

  /** The roughness of a material the picker offers. */
  function Roughness(name: string): (eps: real)
    requires name in PipeTypeNames
    ensures name in PipeTypes && eps == PipeTypes[name]
    ensures 0.0 < eps <= 0.003
  {
    PipeTypes[name]
  }

  // ---------------------------------------------------------------------------
  // colebrook_white
  // ---------------------------------------------------------------------------

  /**
    One substitution of f into the Colebrook–White right-hand side,
    1 / (-2 log10(eps / (3.7 D) + 2.51 / (Re sqrt f)))^2; None where Python raises.
  */
  function FrictionStep(m: MathLib, Re: real, eps: real, D: real, f: real): (r: Option<real>)
    ensures r.Some? ==> D != 0.0 && f >= 0.0 && r.value > 0.0
  {
    if D == 0.0 || f < 0.0 then None
    else
      var root := m.sqrt(f);
      if Re * root == 0.0 then None
      else
        var arg := eps / (3.7 * D) + 2.51 / (Re * root);
        if arg <= 0.0 then None
        else
          var d := -2.0 * m.log10(arg);
          if d * d == 0.0 then None else Some(1.0 / (d * d))
  }

  /** What the turbulent loop returns from iterate `f` with `fuel` passes left. */
  function TurbulentFrom(m: MathLib, Re: real, eps: real, D: real, f: real, fuel: nat): Option<real>
    decreases fuel
  {
    if fuel == 0 then Some(f)
    else
      match FrictionStep(m, Re, eps, D, f)
      case None => None
      case Some(next) =>
        if Abs(next - f) < Tolerance then Some(next)
        else TurbulentFrom(m, Re, eps, D, next, fuel - 1)
  }

  /** The friction factor `colebrook_white(Re, eps, D)` returns, or None where it raises. */
  function FrictionFactor(m: MathLib, Re: real, eps: real, D: real): Option<real> {
    if Re < LaminarLimit then
      (if Re == 0.0 then None else Some(64.0 / Re))
    else
      TurbulentFrom(m, Re, eps, D, FrictionSeed, MaxFrictionSteps)
  }

  /** The k-th iterate of the substitution from f, with no stopping test. */
  function FrictionIterate(m: MathLib, Re: real, eps: real, D: real, f: real, k: nat): Option<real>
    decreases k
  {
    if k == 0 then Some(f)
    else
      match FrictionStep(m, Re, eps, D, f)
      case None => None
      case Some(next) => FrictionIterate(m, Re, eps, D, next, k - 1)
  }

  /** The k-th substitution (k >= 1) changed f by less than the tolerance. */
  ghost predicate FrictionSettled(m: MathLib, Re: real, eps: real, D: real, f: real, k: nat) {
    k >= 1 &&
    FrictionIterate(m, Re, eps, D, f, k - 1).Some? &&
    FrictionIterate(m, Re, eps, D, f, k).Some? &&
    Abs(FrictionIterate(m, Re, eps, D, f, k).value - FrictionIterate(m, Re, eps, D, f, k - 1).value) < Tolerance
  }

  /**
    The turbulent loop stops after k substitutions: k is at most the cap, the result
    is the k-th iterate, no earlier substitution settled, and the loop stops before
    the cap only at a substitution that settled.
  */
  lemma {:induction false} TurbulentStops(m: MathLib, Re: real, eps: real, D: real, f: real, fuel: nat)
    returns (k: nat)
    requires TurbulentFrom(m, Re, eps, D, f, fuel).Some?
    ensures k <= fuel && (fuel > 0 ==> k >= 1)
    ensures TurbulentFrom(m, Re, eps, D, f, fuel) == FrictionIterate(m, Re, eps, D, f, k)
    ensures forall j :: 1 <= j < k ==> !FrictionSettled(m, Re, eps, D, f, j)
    ensures k < fuel ==> FrictionSettled(m, Re, eps, D, f, k)
    decreases fuel
  {
    if fuel == 0 {
      k := 0;
    } else {
      var next := FrictionStep(m, Re, eps, D, f).value;
      assert FrictionIterate(m, Re, eps, D, f, 1) == FrictionIterate(m, Re, eps, D, next, 0);
      if Abs(next - f) < Tolerance {
        k := 1;
        assert FrictionSettled(m, Re, eps, D, f, 1);
      } else {
        var k' := TurbulentStops(m, Re, eps, D, next, fuel - 1);
        k := k' + 1;
        forall j | 1 <= j < k
          ensures !FrictionSettled(m, Re, eps, D, f, j)
        {
          if j >= 2 {
            assert FrictionIterate(m, Re, eps, D, f, j) == FrictionIterate(m, Re, eps, D, next, j - 1);
            assert FrictionIterate(m, Re, eps, D, f, j - 1) == FrictionIterate(m, Re, eps, D, next, j - 2);
            assert !FrictionSettled(m, Re, eps, D, next, j - 1);
          }
        }
        if k < fuel {
          assert FrictionIterate(m, Re, eps, D, f, k) == FrictionIterate(m, Re, eps, D, next, k');
          assert FrictionIterate(m, Re, eps, D, f, k - 1) == FrictionIterate(m, Re, eps, D, next, k' - 1);
          assert FrictionSettled(m, Re, eps, D, next, k');
        }
      }
    }
  }

  /**
    `colebrook_white`: 64/Re in the laminar regime (raising only for Re = 0), and in
    the turbulent regime the fixed-point loop from 0.02 with at most 50 passes.
  */
  method ColebrookWhite(m: MathLib, Re: real, eps: real, D: real) returns (r: Option<real>)
    ensures r == FrictionFactor(m, Re, eps, D)
    ensures Re < LaminarLimit ==> r == (if Re == 0.0 then None else Some(64.0 / Re))
    ensures Re >= LaminarLimit && r.Some? ==> r.value > 0.0
  {
    if Re < LaminarLimit {
      if Re == 0.0 {
        return None;
      }
      return Some(64.0 / Re);
    }
    var f := FrictionSeed;
    var i := 0;
    while i < MaxFrictionSteps
      invariant 0 <= i <= MaxFrictionSteps
      invariant i > 0 ==> f > 0.0
      invariant TurbulentFrom(m, Re, eps, D, f, MaxFrictionSteps - i) == FrictionFactor(m, Re, eps, D)
    {
      var fOld := f;
      var next := FrictionStep(m, Re, eps, D, fOld);
      if next.None? {
        return None;
      }
      f := next.value;
      if Abs(f - fOld) < Tolerance {
        break;
      }
      i := i + 1;
    }
    return Some(f);
  }

  /** Within the turbulent regime the result is the k-th substitution for some k <= 50, stopping at the first that settled. */
  lemma TurbulentFrictionCapped(m: MathLib, Re: real, eps: real, D: real) returns (k: nat)
    requires Re >= LaminarLimit && FrictionFactor(m, Re, eps, D).Some?
    ensures 1 <= k <= MaxFrictionSteps
    ensures FrictionFactor(m, Re, eps, D) == FrictionIterate(m, Re, eps, D, FrictionSeed, k)
    ensures forall j :: 1 <= j < k ==> !FrictionSettled(m, Re, eps, D, FrictionSeed, j)
    ensures k < MaxFrictionSteps ==> FrictionSettled(m, Re, eps, D, FrictionSeed, k)
  {
    k := TurbulentStops(m, Re, eps, D, FrictionSeed, MaxFrictionSteps);
  }

  // ---------------------------------------------------------------------------
  // solve_velocity_from_head_loss
  // ---------------------------------------------------------------------------

  /** What one pass of the velocity loop computes from friction factor f. */
  datatype Pass = Pass(V: real, Re: real, fNew: real)

  /** The triple `solve_velocity_from_head_loss` returns. */
  datatype HeadLossSolution = HeadLossSolution(V: real, f: real, Re: real)

  /** Reynolds number rho V D / mu. */
  function Reynolds(V: real, D: real): real {
    (Rho * V * D) / Mu
  }

  /** The argument of the square root in a pass with friction factor f. */
  function VelocitySquared(L: real, D: real, hf: real, f: real): real
    requires f * L != 0.0
  {
    (2.0 * G * hf * D) / (f * L)
  }

  /**
    One pass: Darcy–Weisbach solved for V under f, then Re and the friction factor
    for that Re; None where Python raises.
  */
  function VelocityPass(m: MathLib, L: real, D: real, hf: real, eps: real, f: real): (r: Option<Pass>)
    ensures r.Some? ==> f * L != 0.0 && VelocitySquared(L, D, hf, f) >= 0.0
    ensures r.Some? ==> r.value.V == m.sqrt(VelocitySquared(L, D, hf, f))
    ensures r.Some? ==> r.value.Re == Reynolds(r.value.V, D)
    ensures r.Some? ==> FrictionFactor(m, r.value.Re, eps, D) == Some(r.value.fNew)
  {
    if f * L == 0.0 then None
    else
      var x := VelocitySquared(L, D, hf, f);
      if x < 0.0 then None
      else
        var V := m.sqrt(x);
        var Re := Reynolds(V, D);
        match FrictionFactor(m, Re, eps, D)
        case None => None
        case Some(fNew) => Some(Pass(V, Re, fNew))
  }

  /** What the velocity loop returns from friction factor f with `fuel` passes left. */
  function VelocityFrom(m: MathLib, L: real, D: real, hf: real, eps: real, f: real, fuel: nat): Option<HeadLossSolution>
    requires fuel >= 1
    decreases fuel
  {
    match VelocityPass(m, L, D, hf, eps, f)
    case None => None
    case Some(p) =>
      if Abs(p.fNew - f) < Tolerance then Some(HeadLossSolution(p.V, f, p.Re))
      else if fuel == 1 then Some(HeadLossSolution(p.V, p.fNew, p.Re))
      else VelocityFrom(m, L, D, hf, eps, p.fNew, fuel - 1)
  }

  /** The result of `solve_velocity_from_head_loss(L, D, h_f, eps)`, or None where it raises. */
  function HeadLossSolve(m: MathLib, L: real, D: real, hf: real, eps: real): Option<HeadLossSolution> {
    VelocityFrom(m, L, D, hf, eps, FrictionSeed, MaxVelocitySteps)
  }

  /** The friction factor after k passes that did not stop the loop. */
  function FrictionAfter(m: MathLib, L: real, D: real, hf: real, eps: real, f: real, k: nat): Option<real>
    decreases k
  {
    if k == 0 then Some(f)
    else
      match VelocityPass(m, L, D, hf, eps, f)
      case None => None
      case Some(p) => FrictionAfter(m, L, D, hf, eps, p.fNew, k - 1)
  }

  /** Pass j (counting from 0) moved the friction factor by less than the tolerance. */
  ghost predicate PassSettles(m: MathLib, L: real, D: real, hf: real, eps: real, f: real, j: nat) {
    var fj := FrictionAfter(m, L, D, hf, eps, f, j);
    fj.Some? &&
    VelocityPass(m, L, D, hf, eps, fj.value).Some? &&
    Abs(VelocityPass(m, L, D, hf, eps, fj.value).value.fNew - fj.value) < Tolerance
  }

  /**
    How the velocity loop exits. Its last pass is pass k (1 <= k <= cap), run with
    friction factor fUsed and giving fNew; the returned V and Re are that pass's.
    If the pass settled, the returned f is fUsed, the one V was computed from; if it
    did not, the cap is exhausted and the returned f is fNew.
  */
  lemma {:induction false} VelocityExit(m: MathLib, L: real, D: real, hf: real, eps: real, f: real, fuel: nat)
    returns (k: nat, fUsed: real, fNew: real)
    requires fuel >= 1 && VelocityFrom(m, L, D, hf, eps, f, fuel).Some?
    ensures 1 <= k <= fuel
    ensures FrictionAfter(m, L, D, hf, eps, f, k - 1) == Some(fUsed)
    ensures forall j :: 0 <= j < k - 1 ==> !PassSettles(m, L, D, hf, eps, f, j)
    ensures var s := VelocityFrom(m, L, D, hf, eps, f, fuel).value;
      VelocityPass(m, L, D, hf, eps, fUsed) == Some(Pass(s.V, s.Re, fNew)) &&
      (Abs(fNew - fUsed) < Tolerance ==> s.f == fUsed) &&
      (Abs(fNew - fUsed) >= Tolerance ==> k == fuel && s.f == fNew)
    decreases fuel
  {
    var p := VelocityPass(m, L, D, hf, eps, f).value;
    if Abs(p.fNew - f) < Tolerance || fuel == 1 {
      k, fUsed, fNew := 1, f, p.fNew;
    } else {
      var k', fUsed', fNew' := VelocityExit(m, L, D, hf, eps, p.fNew, fuel - 1);
      k, fUsed, fNew := k' + 1, fUsed', fNew';
      assert FrictionAfter(m, L, D, hf, eps, f, k - 1) == FrictionAfter(m, L, D, hf, eps, p.fNew, k' - 1);
      forall j | 0 <= j < k - 1
        ensures !PassSettles(m, L, D, hf, eps, f, j)
      {
        if j >= 1 {
          assert FrictionAfter(m, L, D, hf, eps, f, j) == FrictionAfter(m, L, D, hf, eps, p.fNew, j - 1);
          assert !PassSettles(m, L, D, hf, eps, p.fNew, j - 1);
        }
      }
    }
  }

  /**
    The returned friction factor is always within the tolerance of the one
    Colebrook–White gives for the returned Re. The last pass is pass k, run with
    fUsed and giving fNew; when that pass did not settle, the cap of 100 passes is
    exhausted and the returned f is exactly Colebrook–White of the returned Re.
  */
  lemma ReturnedFrictionMatchesRe(m: MathLib, L: real, D: real, hf: real, eps: real)
    returns (k: nat, fUsed: real, fNew: real)
    requires HeadLossSolve(m, L, D, hf, eps).Some?
    ensures var s := HeadLossSolve(m, L, D, hf, eps).value;
      FrictionFactor(m, s.Re, eps, D).Some? && Abs(FrictionFactor(m, s.Re, eps, D).value - s.f) < Tolerance &&
      1 <= k <= MaxVelocitySteps &&
      FrictionAfter(m, L, D, hf, eps, FrictionSeed, k - 1) == Some(fUsed) &&
      VelocityPass(m, L, D, hf, eps, fUsed) == Some(Pass(s.V, s.Re, fNew)) &&
      (Abs(fNew - fUsed) >= Tolerance ==> k == MaxVelocitySteps && FrictionFactor(m, s.Re, eps, D) == Some(s.f))
  {
    k, fUsed, fNew := VelocityExit(m, L, D, hf, eps, FrictionSeed, MaxVelocitySteps);
  }

  /**
    Pairing of the returned f and V. The returned V was computed from the friction
    factor fUsed, so f L V^2 = 2 g h_f D holds for fUsed (given an exact square root).
    `settled` is the loop's exit test: Colebrook–White of the returned Re is within
    the tolerance of fUsed. When it held, the returned f is fUsed; when the loop ran out
    of passes instead, the returned f is Colebrook–White of the returned Re, differs
    from fUsed, and the equation fails for it unless L V^2 = 0.
  */
  lemma HeadLossPairing(m: MathLib, L: real, D: real, hf: real, eps: real) returns (settled: bool, fUsed: real)
    requires IsSqrt(m) && HeadLossSolve(m, L, D, hf, eps).Some?
    ensures var s := HeadLossSolve(m, L, D, hf, eps).value;
      FrictionFactor(m, s.Re, eps, D).Some? &&
      (settled <==> Abs(FrictionFactor(m, s.Re, eps, D).value - fUsed) < Tolerance) &&
      FrictionHead(fUsed, L, s.V) == DrivingHead(hf, D) &&
      (settled ==> s.f == fUsed) &&
      (!settled ==> s.f != fUsed && FrictionFactor(m, s.Re, eps, D) == Some(s.f)) &&
      (!settled && FrictionHead(s.f, L, s.V) == DrivingHead(hf, D) ==> SpeedLoad(L, s.V) == 0.0)
  {
    settled, fUsed := PairingFrom(m, L, D, hf, eps, FrictionSeed, MaxVelocitySteps);
    var s := HeadLossSolve(m, L, D, hf, eps).value;
    if !settled && FrictionHead(s.f, L, s.V) == DrivingHead(hf, D) {
      FactorCancel(s.f, fUsed, L, s.V);
    }
  }

  /** Two different friction factors use the same head only when L V^2 is zero. */
  lemma FactorCancel(f: real, g: real, L: real, V: real)
    requires FrictionHead(f, L, V) == FrictionHead(g, L, V) && f != g
    ensures SpeedLoad(L, V) == 0.0
  {
    var x := SpeedLoad(L, V);
    assert f * x == g * x;
    assert (f - g) * x == 0.0;
  }

  /** HeadLossPairing for any starting friction factor and any number of passes left. */
  lemma PairingFrom(m: MathLib, L: real, D: real, hf: real, eps: real, f: real, fuel: nat) returns (settled: bool, fUsed: real)
    requires IsSqrt(m) && fuel >= 1 && VelocityFrom(m, L, D, hf, eps, f, fuel).Some?
    ensures var s := VelocityFrom(m, L, D, hf, eps, f, fuel).value;
      FrictionFactor(m, s.Re, eps, D).Some? &&
      (settled <==> Abs(FrictionFactor(m, s.Re, eps, D).value - fUsed) < Tolerance) &&
      FrictionHead(fUsed, L, s.V) == DrivingHead(hf, D) &&
      (settled ==> s.f == fUsed) &&
      (!settled ==> s.f != fUsed && FrictionFactor(m, s.Re, eps, D) == Some(s.f))
  {
    var k, fNew;
    k, fUsed, fNew := VelocityExit(m, L, D, hf, eps, f, fuel);
    PassBalances(m, L, D, hf, eps, fUsed);
    settled := Abs(fNew - fUsed) < Tolerance;
  }

  /** The velocity of a pass with friction factor f balances the driving head under f. */
  lemma PassBalances(m: MathLib, L: real, D: real, hf: real, eps: real, f: real)
    requires IsSqrt(m) && VelocityPass(m, L, D, hf, eps, f).Some?
    ensures FrictionHead(f, L, VelocityPass(m, L, D, hf, eps, f).value.V) == DrivingHead(hf, D)
  {
    var x := VelocitySquared(L, D, hf, f);
    SqrtSquares(m, x);
    DarcyWeisbachInverse(L, D, hf, f, VelocityPass(m, L, D, hf, eps, f).value.V);
  }

  /** L V^2. */
  function SpeedLoad(L: real, V: real): real {
    L * (V * V)
  }

  /** f L V^2, the head a friction factor f "uses" at velocity V over length L. */
  function FrictionHead(f: real, L: real, V: real): real {
    f * SpeedLoad(L, V)
  }

  /** 2 g h_f D, the head the head-loss path has to balance. */
  function DrivingHead(hf: real, D: real): real {
    2.0 * G * hf * D
  }

  lemma SqrtSquares(m: MathLib, x: real)
    requires IsSqrt(m) && x >= 0.0
    ensures m.sqrt(x) * m.sqrt(x) == x
  {
  }

  /** A velocity whose square is VelocitySquared(L, D, hf, f) balances the driving head under f. */
  lemma DarcyWeisbachInverse(L: real, D: real, hf: real, f: real, V: real)
    requires f * L != 0.0 && VelocitySquared(L, D, hf, f) >= 0.0
    requires V * V == VelocitySquared(L, D, hf, f)
    ensures FrictionHead(f, L, V) == DrivingHead(hf, D)
  {
    var x := VelocitySquared(L, D, hf, f);
    assert x * (f * L) == 2.0 * G * hf * D;
  }

  /** `solve_velocity_from_head_loss`: at most 100 passes, each calling `colebrook_white`. */
  method SolveVelocityFromHeadLoss(m: MathLib, L: real, D: real, hf: real, eps: real)
    returns (r: Option<HeadLossSolution>)
    ensures r == HeadLossSolve(m, L, D, hf, eps)
  {
    var f := FrictionSeed;
    var V, Re := 0.0, 0.0;
    var i := 0;
    while i < MaxVelocitySteps
      invariant 0 <= i <= MaxVelocitySteps
      invariant i < MaxVelocitySteps ==> VelocityFrom(m, L, D, hf, eps, f, MaxVelocitySteps - i) == HeadLossSolve(m, L, D, hf, eps)
      invariant i == MaxVelocitySteps ==> HeadLossSolve(m, L, D, hf, eps) == Some(HeadLossSolution(V, f, Re))
    {
      if f * L == 0.0 {
        return None;
      }
      var x := VelocitySquared(L, D, hf, f);
      if x < 0.0 {
        return None;
      }
      V := m.sqrt(x);
      Re := Reynolds(V, D);
      var fNew := ColebrookWhite(m, Re, eps, D);
      if fNew.None? {
        return None;
      }
      assert VelocityPass(m, L, D, hf, eps, f) == Some(Pass(V, Re, fNew.value));
      if Abs(fNew.value - f) < Tolerance {
        break;
      }
      f := fNew.value;
      i := i + 1;
    }
    return Some(HeadLossSolution(V, f, Re));
  }

  // ---------------------------------------------------------------------------
  // The "Calculate" block
  // ---------------------------------------------------------------------------

  /** The five quantities after the Calculate block; None is a name left unset (or None). */
  datatype FlowState = FlowState(V: Option<real>, Q: Option<real>, hf: Option<real>, Re: Option<real>, f: Option<real>)

  /** The block either completes or raises into the catch-all. */
  datatype Outcome = Complete(state: FlowState) | Raised

  /** Python truthiness of an optional number: present and non-zero. */
  predicate Truthy(x: Option<real>) {
    x.Some? && x.value != 0.0
  }

  /** Cross-section area, `math.pi * D**2 / 4 if D else None`. */
  function Area(D: real): (a: Option<real>)
    ensures a.Some? <==> D != 0.0
  {
    if D != 0.0 then Some(Pi * D * D / 4.0) else None
  }

  /** The head-loss path runs when V is unset and h_f, L and D are all non-zero. */
  predicate HeadLossPath(L: real, D: real, V: Option<real>, hf: Option<real>) {
    V.None? && Truthy(hf) && L != 0.0 && D != 0.0
  }

  /** The display lines read Re and f whenever V is non-zero, raising if either is unset. */
  predicate DisplayRaises(s: FlowState) {
    Truthy(s.V) && (s.Re.None? || s.f.None?)
  }

  /** The velocity the direct path works with: the supplied one, else Q / A when Q and A are non-zero. */
  function DirectVelocity(D: real, Q: Option<real>, V: Option<real>): Option<real> {
    if V.None? && Truthy(Q) && Truthy(Area(D)) then Some(MeanVelocity(Q.value, Area(D).value)) else V
  }

  /** Darcy–Weisbach head loss f (L/D) V^2 / (2 g). */
  function DarcyHeadLoss(f: real, L: real, D: real, V: real): real
    requires D != 0.0
  {
    f * (L / D) * (V * V) / (2.0 * G)
  }

  /**
    The Calculate block for material roughness eps, length L, diameter D and the
    optional inputs Q, V and h_f: the head-loss path when V is unset and h_f, L and D
    are non-zero, the direct path otherwise.
  */
  method Calculate(m: MathLib, eps: real, L: real, D: real, Q: Option<real>, V: Option<real>, hf: Option<real>)
    returns (out: Outcome)
    ensures HeadLossPath(L, D, V, hf) ==>
      out == match HeadLossSolve(m, L, D, hf.value, eps)
             case None => Raised
             case Some(s) => Complete(FlowState(Some(s.V), Q, hf, Some(s.Re), Some(s.f)))
    ensures !HeadLossPath(L, D, V, hf) ==> out == DirectOutcome(m, eps, L, D, Q, V, hf)
    ensures out.Complete? ==>
      (V.Some? ==> out.state.V == V) && (Q.Some? ==> out.state.Q == Q) && (hf.Some? ==> out.state.hf == hf)
    ensures out.Complete? ==>
      (DisplayRaises(out.state) <==> !HeadLossPath(L, D, V, hf) && Truthy(V) && D == 0.0)
  {
    if HeadLossPath(L, D, V, hf) {
      var r := SolveVelocityFromHeadLoss(m, L, D, hf.value, eps);
      if r.None? {
        return Raised;
      }
      return Complete(FlowState(Some(r.value.V), Q, hf, Some(r.value.Re), Some(r.value.f)));
    }
    out := DirectPath(m, eps, L, D, Q, V, hf);
  }

  /** The outcome of the direct path, as DirectPath computes it. */
  function DirectOutcome(m: MathLib, eps: real, L: real, D: real, Q: Option<real>, V: Option<real>, hf: Option<real>): Outcome {
    var v := DirectVelocity(D, Q, V);
    var q := if Q.None? && Truthy(v) && Truthy(Area(D)) then Some(Discharge(v.value, Area(D).value)) else Q;
    if Truthy(v) && D != 0.0 then
      var re := Reynolds(v.value, D);
      match FrictionFactor(m, re, eps, D)
      case None => Raised
      case Some(f) =>
        var h := if hf.None? && L != 0.0 then Some(DarcyHeadLoss(f, L, D, v.value)) else hf;
        Complete(FlowState(v, q, h, Some(re), Some(f)))
    else
      Complete(FlowState(v, q, hf, None, None))
  }

  /**
    The direct path (the `else` branch of the Calculate block): V := Q / A, Q := V A,
    Re and f, and h_f by Darcy–Weisbach, each only when its inputs are non-zero.
  */
  method DirectPath(m: MathLib, eps: real, L: real, D: real, Q: Option<real>, V: Option<real>, hf: Option<real>)
    returns (out: Outcome)
    ensures out == DirectOutcome(m, eps, L, D, Q, V, hf)
    // A supplied value is never overwritten.
    ensures out.Complete? ==>
      (V.Some? ==> out.state.V == V) && (Q.Some? ==> out.state.Q == Q) && (hf.Some? ==> out.state.hf == hf)
    // V := Q / A only when V is unset and Q and A are non-zero; then V A = Q.
    ensures out.Complete? && V.None? ==>
      (out.state.V.Some? <==> Truthy(Q) && Truthy(Area(D))) &&
      (out.state.V.Some? ==> Discharge(out.state.V.value, Area(D).value) == Q.value)
    // Q := V A only when Q is unset and V and A are non-zero.
    ensures out.Complete? && Q.None? ==>
      (out.state.Q.Some? <==> Truthy(V) && Truthy(Area(D))) &&
      (out.state.Q.Some? ==> out.state.Q.value == Discharge(V.value, Area(D).value))
    // Re = rho V D / mu and f from `colebrook_white` exactly when V and D are non-zero.
    ensures out.Complete? ==>
      var s := out.state;
      (s.Re.Some? <==> Truthy(s.V) && D != 0.0) &&
      (s.Re.Some? ==> s.Re.value == Reynolds(s.V.value, D) && s.f == FrictionFactor(m, s.Re.value, eps, D)) &&
      (s.Re.None? ==> s.f.None?)
    // h_f by Darcy–Weisbach only when h_f is unset and V, L and D are non-zero.
    ensures out.Complete? && hf.None? ==>
      var s := out.state;
      (s.hf.Some? <==> Truthy(s.V) && L != 0.0 && D != 0.0) &&
      (s.hf.Some? ==> s.f.Some? && s.hf.value == DarcyHeadLoss(s.f.value, L, D, s.V.value))
    // The path raises only inside `colebrook_white`.
    ensures out.Raised? <==>
      var v := DirectVelocity(D, Q, V);
      Truthy(v) && D != 0.0 && FrictionFactor(m, Reynolds(v.value, D), eps, D).None?
    // Displaying the result raises exactly when V was supplied non-zero with D = 0.
    ensures out.Complete? ==> (DisplayRaises(out.state) <==> Truthy(V) && D == 0.0)
  {
    var A := Area(D);
    var v, q, h := V, Q, hf;
    var re: Option<real> := None;
    var f: Option<real> := None;
    if v.None? && Truthy(q) && Truthy(A) {
      v := Some(MeanVelocity(q.value, A.value));
      FlowContinuity(q.value, A.value);
    }
    if q.None? && Truthy(v) && Truthy(A) {
      q := Some(Discharge(v.value, A.value));
    }
    if Truthy(v) && D != 0.0 {
      re := Some(Reynolds(v.value, D));
      f := ColebrookWhite(m, re.value, eps, D);
      if f.None? {
        return Raised;
      }
    }
    if h.None? && Truthy(v) && L != 0.0 && D != 0.0 {
      h := Some(DarcyHeadLoss(f.value, L, D, v.value));
    }
    return Complete(FlowState(v, q, h, re, f));
  }

  /** Flow Q = V A through area A at mean velocity V. */
  function Discharge(V: real, A: real): real {
    V * A
  }

  /** Mean velocity Q / A of flow Q through area A. */
  function MeanVelocity(Q: real, A: real): real
    requires A != 0.0
  {
    Q / A
  }

  /** Continuity: the mean velocity times the area gives back the flow. */
  lemma FlowContinuity(Q: real, A: real)
    requires A != 0.0
    ensures Discharge(MeanVelocity(Q, A), A) == Q
  {
  }
}
