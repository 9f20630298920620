/**
 * Particle-system bookkeeping (ParticleSystem.cpp). The system walks its
 * particle map in id order: it culls dead particles, clears their net forces,
 * applies every force and drops the transient ones, integrates each particle
 * with a fixed step, and resolves collisions. Resolving a collision with
 * friction adds a transient friction force.
 *
 * The integration formulas are not modelled: a particle's new position and
 * velocity come from a `motion` function of its state before the step. A
 * collision object is known by its id, and `resolve` says whether it takes
 * an impact and how it rewrites the impact. Applying a force adds to the net
 * force of each particle it acts on (`Pushed`); generic, resistance, gravity
 * and friction forces are computed, and what the model does not compute (the
 * wind's random push, torque, a spring's pull from its end positions and
 * `Vector::Normalize`) comes from a `ForceLaw` parameter.
 */
module Particles {
  import opened Wrappers
  import opened Geometry
  import opened Objects

  newtype int32 = x: int | -0x8000_0000 <= x < 0x8000_0000

  /** The step IntegrateParticles passes to every particle, whatever the clock says. */
  const FixedTimeStep: real := 0.016

  /** `(unsigned)max` for a 32-bit count: a negative count wraps to a huge bound. */
  function HistoryCap(max: int32): (r: nat)
    ensures max >= 0 ==> r == max as int
    ensures max < 0 ==> r >= 0x8000_0000
  {
    if max >= 0 then max as int else max as int + 0x1_0000_0000
  }

  /**
   * The position history after pushing `front` and popping from the back
   * while it is longer than the cap: the newest entries, `front` first.
   */
  function Window(front: Vector, history: seq<Vector>, max: int32): (r: seq<Vector>)
    ensures |r| == if |history| + 1 <= HistoryCap(max) then |history| + 1 else HistoryCap(max)
    ensures r == ([front] + history)[..|r|]
    ensures |r| > 0 ==> r[0] == front
  {
    var full := [front] + history;
    if |full| > HistoryCap(max) then full[..HistoryCap(max)] else full
  }

  /**
   * What the model keeps of a particle: everything but the acceleration,
   * which `Particle::Integrate` recomputes from the net force and the mass
   * before it reads it.
   */
  datatype ParticleState = ParticleState(
    position: Vector,
    velocity: Vector,
    netForce: Vector,
    mass: real,
    timeOfDeath: real,
    history: seq<Vector>,
    historyMax: int32)
  {
    /** GetPreviousPosition: the newest history entry, or the current position when there is none. */
    function PreviousPosition(): (r: Vector)
      ensures r in [position] + history
      ensures |history| > 0 ==> r == history[0]
    {
      if |history| == 0 then position else history[0]
    }

    /** A particle dies once its non-zero time of death has come. */
    predicate IsDead(currentTime: real): (dead: bool)
      ensures timeOfDeath == 0.0 ==> !dead
      ensures dead ==> timeOfDeath <= currentTime
    {
      timeOfDeath != 0.0 && timeOfDeath <= currentTime
    }
  }

  /** A particle as constructed. */
  const NewParticle := ParticleState(Origin, Origin, Origin, 1.0, 0.0, [], 1)

  /** Where a particle goes in one step, and its velocity there. */
  datatype Motion = Motion(position: Vector, velocity: Vector)

  /**
   * The Euler or Verlet formula of `Particle::Integrate`: the new position
   * and velocity from the state before the step (net force, mass, velocity,
   * position and previous position) and the time step.
   */
  type MotionLaw = (ParticleState, real) -> Motion

  /** One integration step: the current position is pushed onto the history and the particle moves. */
  function Integrated(s: ParticleState, deltaTime: real, motion: MotionLaw): ParticleState
  {
    var next := motion(s, deltaTime);
    s.(position := next.position, velocity := next.velocity, history := Window(s.position, s.history, s.historyMax))
  }

  /**
   * After a step the history is within its cap and, when the cap allows an
   * entry, the previous position is the position before the step; with a
   * cap of zero it is the new position. Mass, time of death, net force and
   * cap are unchanged; position and velocity are the motion's.
   */
  lemma IntegratedKeepsHistoryWindow(s: ParticleState, deltaTime: real, motion: MotionLaw)
    ensures |Integrated(s, deltaTime, motion).history| <= HistoryCap(s.historyMax)
    ensures HistoryCap(s.historyMax) >= 1 ==> Integrated(s, deltaTime, motion).PreviousPosition() == s.position
    ensures HistoryCap(s.historyMax) == 0 ==> Integrated(s, deltaTime, motion).PreviousPosition() == motion(s, deltaTime).position
    ensures Integrated(s, deltaTime, motion).(position := s.position, velocity := s.velocity, history := s.history) == s
  {
  }

  /** A new particle keeps exactly one previous position once it has moved. */
  lemma NewParticleKeepsOnePosition(deltaTime: real, motion: MotionLaw)
    ensures |Integrated(NewParticle, deltaTime, motion).history| == 1
    ensures Integrated(NewParticle, deltaTime, motion).PreviousPosition() == Origin
  {
  }

  class Particle {
    /** The id the particle collection gave it (0 until then). */
    var id: int
    /**
     * The particle's other fields, kept together: the position (behind
     * GetPosition/SetPosition), the velocity, the net force, the mass, the
     * time of death and the position history with its cap.
     */
    var state: ParticleState

    constructor ()
      ensures state == NewParticle && id == 0
    {
      id := 0;
      state := NewParticle;
    }

    /**
     * Computes the new position and velocity from the state before the
     * step, pushes the current position onto the front of the history, pops
     * from the back while the history is over its cap, and moves.
     */
    method Integrate(deltaTime: real, motion: MotionLaw)
      modifies this
      ensures state == Integrated(old(state), deltaTime, motion)
      ensures id == old(id)
    {
      var currentPosition := state.position;
      var next := motion(state, deltaTime);
      ghost var full := [currentPosition] + state.history;
      ghost var cap := HistoryCap(state.historyMax);
      state := state.(history := [currentPosition] + state.history);
      assert full[..|full|] == full;
      while |state.history| > HistoryCap(state.historyMax)
        invariant id == old(id)
        invariant state == old(state).(history := state.history)
        invariant state.history == full[..|state.history|]
        invariant (if |full| <= cap then |full| else cap) <= |state.history| <= |full|
        decreases |state.history|
      {
        state := state.(history := state.history[..|state.history| - 1]);
      }
      state := state.(position := next.position, velocity := next.velocity);
    }
  }

  /** What a collision hands to the collision objects and the friction force. */
  datatype ImpactInfo = ImpactInfo(
    lineOfMotion: LineSegment,
    netForceAtImpact: Vector,
    contactUnitNormal: Vector,
    contactPosition: Vector,
    friction: real)

  /** The impact ResolveCollisions starts from: the motion from the previous position to the current one. */
  function InitialImpact(s: ParticleState): ImpactInfo
  {
    ImpactInfo(LineSegment(s.PreviousPosition(), s.position), s.netForce, Origin, Origin, 0.0)
  }

  datatype ForceKind =
    | GenericForce(force: Vector)
    | WindForce(generalUnitDir: Vector, coneAngle: real, minStrength: real, maxStrength: real)
    | ResistanceForce(resistance: real)
    | GravityForce(accelDueToGravity: Vector)
    | TorqueForce(torque: Vector)
    | SpringForce(endPointA: int, endPointB: int, stiffness: real, equilibriumLength: real)
    | FrictionForce(particleId: int, impactInfo: ImpactInfo)

  datatype Force = Force(kind: ForceKind, enabled: bool, transient: bool)

  /**
   * What the model does not compute of a force: `push` is what a wind (a
   * random draw in its cone and strength range) or a torque (about the
   * centre of mass, which is not kept) adds to a particle; `spring` is a
   * spring's pull given the positions of its two end particles, which
   * divides by their distance; `normalize` is `Vector::Normalize`.
   */
  datatype ForceLaw = ForceLaw(
    push: (Force, ParticleState) -> Vector,
    spring: (Force, Vector, Vector) -> Vector,
    normalize: Vector -> Vector)

  /** What a force that acts on every particle adds to one particle's net force. */
  function Push(f: Force, s: ParticleState, law: ForceLaw): Vector
  {
    match f.kind
    case GenericForce(v) => v
    case ResistanceForce(resistance) => Scale(s.velocity, -resistance)
    case GravityForce(g) => Scale(g, s.mass)
    case _ => law.push(f, s)
  }

  /**
   * The particle stored under `key` after `f` is applied (`Force::Apply`),
   * `positions` being the positions of the particles in the map, by key. A
   * spring acts only when both its end particles exist, adding its pull to
   * the first and subtracting it from the second. A friction force acts only on its own
   * particle, and only when the net force at impact does not point along
   * the contact normal. Every other force acts on every particle. Only the
   * net force changes.
   */
  function Pushed(s: ParticleState, f: Force, key: int, positions: map<int, Vector>, law: ForceLaw): ParticleState
  {
    match f.kind
    case SpringForce(a, b, _, _) =>
      if a in positions && b in positions then
        var pull := law.spring(f, positions[a], positions[b]);
        var pulled := if key == a then Add(s.netForce, pull) else s.netForce;
        s.(netForce := if key == b then Sub(pulled, pull) else pulled)
      else s
    case FrictionForce(particleId, info) =>
      var normalForce := Dot(info.contactUnitNormal, info.netForceAtImpact);
      if key == particleId && normalForce <= 0.0 then
        var impactUnitDir := law.normalize(Sub(info.lineOfMotion.v1, info.lineOfMotion.v0));
        s.(netForce := Add(s.netForce, Scale(impactUnitDir, info.friction * normalForce)))
      else s
    case _ => s.(netForce := Add(s.netForce, Push(f, s, law)))
  }

  /** The particle stored under `key` after the forces stored under `order` are applied in that order. */
  function Accumulated(s: ParticleState, key: int, positions: map<int, Vector>, order: seq<int>, forces: map<int, Force>, law: ForceLaw): ParticleState
    decreases |order|
  {
    if order == [] then s
    else
      var n := |order| - 1;
      var before := Accumulated(s, key, positions, order[..n], forces, law);
      if order[n] in forces then Pushed(before, forces[order[n]], key, positions, law) else before
  }

  /** Applying one more force pushes every accumulated state once more. */
  lemma AccumulatedStep(positions: map<int, Vector>, order: seq<int>, next: int, forces: map<int, Force>, law: ForceLaw)
    ensures next in forces ==> forall s, key :: Accumulated(s, key, positions, order + [next], forces, law)
                                               == Pushed(Accumulated(s, key, positions, order, forces, law), forces[next], key, positions, law)
    ensures next !in forces ==> forall s, key :: Accumulated(s, key, positions, order + [next], forces, law)
                                                == Accumulated(s, key, positions, order, forces, law)
  {
    assert (order + [next])[..|order|] == order;
  }

  /** Applying forces changes nothing about a particle but its net force. */
  lemma {:induction false} AccumulatedKeepsAllButNetForce(s: ParticleState, key: int, positions: map<int, Vector>, order: seq<int>, forces: map<int, Force>, law: ForceLaw)
    ensures Accumulated(s, key, positions, order, forces, law).(netForce := s.netForce) == s
    decreases |order|
  {
    if order != [] {
      AccumulatedKeepsAllButNetForce(s, key, positions, order[..|order| - 1], forces, law);
    }
  }

  /**
   * A friction force of another particle, or a spring with neither end at
   * this particle, leaves the particle as it is; so does a spring with an
   * end particle missing.
   */
  lemma UntargetedForceLeavesParticle(s: ParticleState, f: Force, key: int, positions: map<int, Vector>, law: ForceLaw)
    requires f.kind.FrictionForce? ==> f.kind.particleId != key
    requires f.kind.SpringForce? ==> (f.kind.endPointA != key && f.kind.endPointB != key) || f.kind.endPointA !in positions || f.kind.endPointB !in positions
    requires f.kind.SpringForce? || f.kind.FrictionForce?
    ensures Pushed(s, f, key, positions, law) == s
  {
  }

  /**
   * With only generic forces, a particle whose net force starts at zero
   * ends with the sum of the forces' vectors, in application order.
   */
  lemma {:induction false} GenericForcesSum(s: ParticleState, key: int, positions: map<int, Vector>, order: seq<int>, forces: map<int, Force>, law: ForceLaw)
    requires forall k :: k in order ==> k in forces && forces[k].kind.GenericForce?
    ensures Accumulated(s, key, positions, order, forces, law).netForce == Add(s.netForce, VectorSum(order, forces))
    decreases |order|
  {
    if order != [] {
      var n := |order| - 1;
      assert forall k :: k in order[..n] ==> k in order;
      GenericForcesSum(s, key, positions, order[..n], forces, law);
      assert order[n] in order;
    }
  }

  /** The sum of the generic forces' vectors stored under `order`. */
  function VectorSum(order: seq<int>, forces: map<int, Force>): Vector
    decreases |order|
  {
    if order == [] then Origin
    else
      var n := |order| - 1;
      var k := order[n];
      Add(VectorSum(order[..n], forces), if k in forces && forces[k].kind.GenericForce? then forces[k].kind.force else Origin)
  }

  /** A friction force as ResolveCollisions creates it: enabled and transient. */
  function FrictionForceOf(particleId: int, impactInfo: ImpactInfo): (f: Force)
    ensures f.transient && f.kind.FrictionForce?
  {
    Force(FrictionForce(particleId, impactInfo), true, true)
  }

  /**
   * The collision objects, in order, acting on one particle's impact: the
   * impact as last rewritten, the last contact position, and each
   * resolution that came with friction.
   */
  datatype Resolution = Resolution(info: ImpactInfo, contact: Option<Vector>, frictions: seq<ImpactInfo>)

  function ResolveAll(resolve: (int, ImpactInfo) -> Option<ImpactInfo>, colliders: seq<int>, start: ImpactInfo): (r: Resolution)
    ensures forall i :: 0 <= i < |r.frictions| ==> r.frictions[i].friction != 0.0
    ensures |r.frictions| <= |colliders|
    decreases |colliders|
  {
    if colliders == [] then Resolution(start, None, [])
    else
      var n := |colliders| - 1;
      var before := ResolveAll(resolve, colliders[..n], start);
      match resolve(colliders[n], before.info)
      case None => before
      case Some(next) =>
        Resolution(next, Some(next.contactPosition), before.frictions + if next.friction != 0.0 then [next] else [])
  }

  /** When no collision object takes the impact, the particle stays and no force is added. */
  lemma {:induction false} NoCollisionNoFriction(resolve: (int, ImpactInfo) -> Option<ImpactInfo>, colliders: seq<int>, start: ImpactInfo)
    requires forall c, info :: c in colliders ==> resolve(c, info).None?
    ensures ResolveAll(resolve, colliders, start) == Resolution(start, None, [])
    decreases |colliders|
  {
    if colliders != [] {
      var n := |colliders| - 1;
      assert forall c :: c in colliders[..n] ==> c in colliders;
      NoCollisionNoFriction(resolve, colliders[..n], start);
      var before := ResolveAll(resolve, colliders[..n], start);
      var last := colliders[n];
      assert last in colliders;
      var info := before.info;
      assert resolve(last, info).None?;
    }
  }

  /**
   * When collision objects resolve the impact but none with friction, the
   * particle moves to the last contact and no force is added.
   */
  lemma {:induction false} FrictionlessAddsNoForce(resolve: (int, ImpactInfo) -> Option<ImpactInfo>, colliders: seq<int>, start: ImpactInfo)
    requires forall c, info :: c in colliders && resolve(c, info).Some? ==> resolve(c, info).value.friction == 0.0
    ensures ResolveAll(resolve, colliders, start).frictions == []
    decreases |colliders|
  {
    if colliders != [] {
      var n := |colliders| - 1;
      assert forall c :: c in colliders[..n] ==> c in colliders;
      FrictionlessAddsNoForce(resolve, colliders[..n], start);
      var before := ResolveAll(resolve, colliders[..n], start);
      var last := colliders[n];
      assert last in colliders;
      var info := before.info;
      var outcome := resolve(last, info);
      if outcome.Some? {
        assert outcome.value.friction == 0.0;
        assert before.frictions + [] == before.frictions;
      }
    }
  }

  /** The force map after adding friction forces for `impacts` under consecutive ids from `nextId`. */
  function WithFrictionForces(forces: map<int, Force>, nextId: int, particleId: int, impacts: seq<ImpactInfo>): map<int, Force>
    decreases |impacts|
  {
    if impacts == [] then forces
    else
      var n := |impacts| - 1;
      WithFrictionForces(forces, nextId, particleId, impacts[..n])[nextId + n := FrictionForceOf(particleId, impacts[n])]
  }

  /** The forces keep their ids, and impact i becomes a friction force under id nextId + i. */
  lemma {:induction false} WithFrictionForcesMeaning(forces: map<int, Force>, nextId: int, particleId: int, impacts: seq<ImpactInfo>)
    ensures var r := WithFrictionForces(forces, nextId, particleId, impacts);
            && (forall k :: k in forces && !(nextId <= k < nextId + |impacts|) ==> k in r && r[k] == forces[k])
            && (forall k :: k in r ==> k in forces || nextId <= k < nextId + |impacts|)
            && (forall k :: nextId <= k < nextId + |impacts| ==> k in r && r[k] == FrictionForceOf(particleId, impacts[k - nextId]))
    decreases |impacts|
  {
    if impacts != [] {
      var n := |impacts| - 1;
      WithFrictionForcesMeaning(forces, nextId, particleId, impacts[..n]);
      var before := WithFrictionForces(forces, nextId, particleId, impacts[..n]);
      var r := WithFrictionForces(forces, nextId, particleId, impacts);
      assert r == before[nextId + n := FrictionForceOf(particleId, impacts[n])];
      forall k | nextId <= k < nextId + |impacts|
        ensures k in r && r[k] == FrictionForceOf(particleId, impacts[k - nextId])
      {
        WithFrictionForcesAt(forces, nextId, particleId, impacts, k);
      }
    }
  }

  /** The friction force of impact `k - nextId` sits under id `k`. */
  lemma {:induction false} WithFrictionForcesAt(forces: map<int, Force>, nextId: int, particleId: int, impacts: seq<ImpactInfo>, k: int)
    requires nextId <= k < nextId + |impacts|
    ensures var r := WithFrictionForces(forces, nextId, particleId, impacts);
            k in r && r[k] == FrictionForceOf(particleId, impacts[k - nextId])
    decreases |impacts|
  {
    var n := |impacts| - 1;
    if k < nextId + n {
      WithFrictionForcesAt(forces, nextId, particleId, impacts[..n], k);
      assert impacts[..n][k - nextId] == impacts[k - nextId];
    }
  }

  /** `after` keeps every force of `before`; each force it adds has an id from `from` on and is a transient friction force with friction. */
  ghost predicate AddsOnlyFriction(before: map<int, Force>, from: int, after: map<int, Force>)
  {
    && (forall k :: k in before ==> k in after && after[k] == before[k])
    && (forall k :: k in after && k !in before ==>
          from <= k && after[k].transient && after[k].kind.FrictionForce? && after[k].kind.impactInfo.friction != 0.0)
  }

  lemma AddsOnlyFrictionTransitive(a: map<int, Force>, from: int, b: map<int, Force>, from': int, c: map<int, Force>)
    requires AddsOnlyFriction(a, from, b) && AddsOnlyFriction(b, from', c) && from <= from'
    requires forall k :: k in b ==> k < from'
    ensures AddsOnlyFriction(a, from, c)
  {
  }

  /** Friction forces added past every existing id keep the old forces and add only friction. */
  lemma FrictionForcesAddOnlyFriction(forces: map<int, Force>, nextId: int, particleId: int, impacts: seq<ImpactInfo>)
    requires forall k :: k in forces ==> k < nextId
    requires forall i :: 0 <= i < |impacts| ==> impacts[i].friction != 0.0
    ensures AddsOnlyFriction(forces, nextId, WithFrictionForces(forces, nextId, particleId, impacts))
  {
    var r := WithFrictionForces(forces, nextId, particleId, impacts);
    WithFrictionForcesMeaning(forces, nextId, particleId, impacts);
    forall k | k in r && k !in forces
      ensures nextId <= k && r[k].transient && r[k].kind.FrictionForce? && r[k].kind.impactInfo.friction != 0.0
    {
      assert r[k] == FrictionForceOf(particleId, impacts[k - nextId]);
    }
  }

  /** One particle's part of a collision resolution: the particle's id and its impacts with friction. */
  type FrictionBatch = (int, seq<ImpactInfo>)

  /**
   * The friction batches of the particles stored under `order`, in that
   * order, each particle resolved from its state in `states`.
   */
  function FrictionBatches(order: seq<int>, ids: map<int, int>, states: map<int, ParticleState>,
                           colliders: seq<int>, resolve: (int, ImpactInfo) -> Option<ImpactInfo>): seq<FrictionBatch>
    decreases |order|
  {
    if order == [] then []
    else
      var n := |order| - 1;
      var k := order[n];
      FrictionBatches(order[..n], ids, states, colliders, resolve)
        + if k in ids && k in states then [(ids[k], ResolveAll(resolve, colliders, InitialImpact(states[k])).frictions)] else []
  }

  /** The number of friction forces the batches call for. */
  function FrictionCount(batches: seq<FrictionBatch>): nat
    decreases |batches|
  {
    if batches == [] then 0 else FrictionCount(batches[..|batches| - 1]) + |batches[|batches| - 1].1|
  }

  /** The force map after adding each batch's friction forces in turn, under consecutive ids from `nextId`. */
  function WithAllFrictions(forces: map<int, Force>, nextId: int, batches: seq<FrictionBatch>): map<int, Force>
    decreases |batches|
  {
    if batches == [] then forces
    else
      var n := |batches| - 1;
      WithFrictionForces(WithAllFrictions(forces, nextId, batches[..n]), nextId + FrictionCount(batches[..n]), batches[n].0, batches[n].1)
  }

  /** Resolving one more particle appends its batch and adds its friction forces after all earlier ones. */
  lemma FrictionBatchesStep(done: seq<int>, key: int, ids: map<int, int>, states: map<int, ParticleState>,
                            colliders: seq<int>, resolve: (int, ImpactInfo) -> Option<ImpactInfo>,
                            forces: map<int, Force>, nextId: int)
    requires key in ids && key in states
    ensures var before := FrictionBatches(done, ids, states, colliders, resolve);
            var frictions := ResolveAll(resolve, colliders, InitialImpact(states[key])).frictions;
            var after := FrictionBatches(done + [key], ids, states, colliders, resolve);
            && FrictionCount(after) == FrictionCount(before) + |frictions|
            && WithAllFrictions(forces, nextId, after)
               == WithFrictionForces(WithAllFrictions(forces, nextId, before), nextId + FrictionCount(before), ids[key], frictions)
  {
    var before := FrictionBatches(done, ids, states, colliders, resolve);
    var frictions := ResolveAll(resolve, colliders, InitialImpact(states[key])).frictions;
    FrictionBatchesAppend(done, key, ids, states, colliders, resolve);
    BatchAppend(forces, nextId, before, (ids[key], frictions));
  }

  /** The batches of one more particle are the earlier batches and then its own. */
  lemma FrictionBatchesAppend(done: seq<int>, key: int, ids: map<int, int>, states: map<int, ParticleState>,
                              colliders: seq<int>, resolve: (int, ImpactInfo) -> Option<ImpactInfo>)
    requires key in ids && key in states
    ensures FrictionBatches(done + [key], ids, states, colliders, resolve)
            == FrictionBatches(done, ids, states, colliders, resolve) + [(ids[key], ResolveAll(resolve, colliders, InitialImpact(states[key])).frictions)]
  {
    assert (done + [key])[..|done|] == done;
  }

  /** One more batch adds its friction forces after those of all earlier batches. */
  lemma BatchAppend(forces: map<int, Force>, nextId: int, batches: seq<FrictionBatch>, batch: FrictionBatch)
    ensures FrictionCount(batches + [batch]) == FrictionCount(batches) + |batch.1|
    ensures WithAllFrictions(forces, nextId, batches + [batch])
            == WithFrictionForces(WithAllFrictions(forces, nextId, batches), nextId + FrictionCount(batches), batch.0, batch.1)
  {
    assert (batches + [batch])[..|batches|] == batches;
  }

  predicate FrictionsNonZero(batches: seq<FrictionBatch>)
  {
    forall i, j :: 0 <= i < |batches| && 0 <= j < |batches[i].1| ==> batches[i].1[j].friction != 0.0
  }

  lemma {:induction false} FrictionBatchesNonZero(order: seq<int>, ids: map<int, int>, states: map<int, ParticleState>,
                                                 colliders: seq<int>, resolve: (int, ImpactInfo) -> Option<ImpactInfo>)
    ensures FrictionsNonZero(FrictionBatches(order, ids, states, colliders, resolve))
    decreases |order|
  {
    if order != [] {
      FrictionBatchesNonZero(order[..|order| - 1], ids, states, colliders, resolve);
    }
  }

  /**
   * Resolving adds exactly FrictionCount friction forces, under the ids
   * from `nextId` to just before `nextId + FrictionCount`, and keeps every
   * old force.
   */
  lemma {:induction false} WithAllFrictionsMeaning(forces: map<int, Force>, nextId: int, batches: seq<FrictionBatch>)
    requires forall k :: k in forces ==> k < nextId
    requires FrictionsNonZero(batches)
    ensures AddsOnlyFriction(forces, nextId, WithAllFrictions(forces, nextId, batches))
    ensures forall k :: k in WithAllFrictions(forces, nextId, batches) <==> k in forces || nextId <= k < nextId + FrictionCount(batches)
    decreases |batches|
  {
    if batches != [] {
      var n := |batches| - 1;
      assert FrictionsNonZero(batches[..n]) by {
        forall i, j | 0 <= i < n && 0 <= j < |batches[..n][i].1|
          ensures batches[..n][i].1[j].friction != 0.0
        {
          assert batches[..n][i] == batches[i];
        }
      }
      WithAllFrictionsMeaning(forces, nextId, batches[..n]);
      var before := WithAllFrictions(forces, nextId, batches[..n]);
      var from := nextId + FrictionCount(batches[..n]);
      assert forall i :: 0 <= i < |batches[n].1| ==> batches[n].1[i].friction != 0.0;
      FrictionForcesAddOnlyFriction(before, from, batches[n].0, batches[n].1);
      WithFrictionForcesMeaning(before, from, batches[n].0, batches[n].1);
      var after := WithFrictionForces(before, from, batches[n].0, batches[n].1);
      AddsOnlyFrictionTransitive(forces, nextId, before, from, after);
      assert WithAllFrictions(forces, nextId, batches) == after;
      assert FrictionCount(batches) == from - nextId + |batches[n].1|;
      forall k
        ensures k in after <==> k in forces || nextId <= k < nextId + FrictionCount(batches)
      {
        assert k in after <==> k in before || from <= k < from + |batches[n].1|;
      }
    }
  }

  /** After resolution every force id is still below the id counter. */
  lemma ResolvedForceIdsBelow(forces: map<int, Force>, nextId: int, order: seq<int>, ids: map<int, int>,
                              states: map<int, ParticleState>, colliders: seq<int>,
                              resolve: (int, ImpactInfo) -> Option<ImpactInfo>)
    requires forall k :: k in forces ==> k < nextId
    ensures var batches := FrictionBatches(order, ids, states, colliders, resolve);
            forall k :: k in WithAllFrictions(forces, nextId, batches) ==> k < nextId + FrictionCount(batches)
  {
    var batches := FrictionBatches(order, ids, states, colliders, resolve);
    FrictionBatchesNonZero(order, ids, states, colliders, resolve);
    WithAllFrictionsMeaning(forces, nextId, batches);
  }

  /** The forces an accumulation keeps: the ones that are not transient. */
  function KeptForces(forces: map<int, Force>): map<int, Force>
  {
    map k | k in forces && !forces[k].transient :: forces[k]
  }

  /**
   * Friction forces added by collision resolution are transient: the next
   * accumulation removes every one of them and keeps exactly what it would
   * have kept without them.
   */
  lemma FrictionGoneAfterAccumulate(before: map<int, Force>, from: int, after: map<int, Force>)
    requires AddsOnlyFriction(before, from, after)
    ensures KeptForces(after) == KeptForces(before)
  {
    forall k
      ensures k in KeptForces(after) <==> k in KeptForces(before)
    {
      if k in after && k !in before {
        assert after[k].transient;
      }
    }
    forall k | k in KeptForces(after)
      ensures KeptForces(after)[k] == KeptForces(before)[k]
    {
      assert after[k] == before[k];
    }
  }

  /** A particle after its collisions: at the last contact, or where it was when nothing took the impact. */
  function Resolved(s: ParticleState, colliders: seq<int>, resolve: (int, ImpactInfo) -> Option<ImpactInfo>): ParticleState
  {
    var r := ResolveAll(resolve, colliders, InitialImpact(s));
    s.(position := if r.contact.Some? then r.contact.value else s.position)
  }

  /** The particles a cull at `currentTime` keeps: the ones that are not dead. */
  function Culled(states: map<int, ParticleState>, currentTime: real): map<int, ParticleState>
  {
    map k | k in states && !states[k].IsDead(currentTime) :: states[k]
  }

  /** The particles' positions, by the id each is stored under. */
  function PositionsOf(states: map<int, ParticleState>): map<int, Vector>
  {
    map k | k in states :: states[k].position
  }

  /** Every particle with its net force cleared. */
  function Zeroed(states: map<int, ParticleState>): map<int, ParticleState>
  {
    map k | k in states :: states[k].(netForce := Origin)
  }

  /** Every particle after one force is applied. */
  function PushedAll(states: map<int, ParticleState>, f: Force, law: ForceLaw): map<int, ParticleState>
  {
    map k | k in states :: Pushed(states[k], f, k, PositionsOf(states), law)
  }

  /** Every particle after the forces stored under `order` are applied in that order. */
  function AccumulatedAll(states: map<int, ParticleState>, order: seq<int>, forces: map<int, Force>, law: ForceLaw): map<int, ParticleState>
  {
    map k | k in states :: Accumulated(states[k], k, PositionsOf(states), order, forces, law)
  }

  /** Every particle after one integration step. */
  function IntegratedAll(states: map<int, ParticleState>, deltaTime: real, motion: MotionLaw): map<int, ParticleState>
  {
    map k | k in states :: Integrated(states[k], deltaTime, motion)
  }

  /** Every particle after its collisions are resolved. */
  function ResolvedAll(states: map<int, ParticleState>, colliders: seq<int>, resolve: (int, ImpactInfo) -> Option<ImpactInfo>): map<int, ParticleState>
  {
    map k | k in states :: Resolved(states[k], colliders, resolve)
  }

  /** The particles after a step's reset, force accumulation and integration, in that order, before collisions are resolved. */
  function SteppedAll(states: map<int, ParticleState>, order: seq<int>, forces: map<int, Force>,
                      law: ForceLaw, motion: MotionLaw): map<int, ParticleState>
  {
    IntegratedAll(AccumulatedAll(Zeroed(states), order, forces, law), FixedTimeStep, motion)
  }

  /** A particle's stepped state: zeroed, pushed by the forces in order, then integrated. */
  lemma SteppedAllAt(states: map<int, ParticleState>, order: seq<int>, forces: map<int, Force>,
                     law: ForceLaw, motion: MotionLaw, k: int)
    requires k in states
    ensures var stepped := SteppedAll(states, order, forces, law, motion);
            && k in stepped
            && stepped[k] == Integrated(Accumulated(states[k].(netForce := Origin), k, PositionsOf(states), order, forces, law), FixedTimeStep, motion)
  {
    assert PositionsOf(Zeroed(states)) == PositionsOf(states);
  }

  /** Applying one more force is one more `PushedAll`; applying none leaves every particle as it is. */
  lemma AccumulatedAllStep(states: map<int, ParticleState>, order: seq<int>, key: int, forces: map<int, Force>, law: ForceLaw)
    ensures AccumulatedAll(states, [], forces, law) == states
    ensures AccumulatedAll(states, order + [key], forces, law)
         == if key in forces then PushedAll(AccumulatedAll(states, order, forces, law), forces[key], law)
            else AccumulatedAll(states, order, forces, law)
  {
    assert (order + [key])[..|order|] == order;
    var before := AccumulatedAll(states, order, forces, law);
    forall k | k in states
      ensures before[k].position == states[k].position
    {
      AccumulatedKeepsAllButNetForce(states[k], k, PositionsOf(states), order, forces, law);
    }
    assert PositionsOf(before) == PositionsOf(states);
  }

  /**
   * Walks the collision objects in the given order with one particle's
   * impact. Each object that takes the impact moves the particle to the
   * contact position; the impacts that come with friction are returned in
   * order, one friction force to add for each.
   */
  method ResolveParticle(particle: Particle, colliders: seq<int>, resolve: (int, ImpactInfo) -> Option<ImpactInfo>)
    returns (frictions: seq<ImpactInfo>)
    modifies particle
    ensures particle.state == Resolved(old(particle.state), colliders, resolve)
    ensures frictions == ResolveAll(resolve, colliders, InitialImpact(old(particle.state))).frictions
    ensures particle.id == old(particle.id)
  {
    ghost var start := InitialImpact(particle.state);
    ghost var before := particle.state;
    var impactInfo := ImpactInfo(LineSegment(particle.state.PreviousPosition(), particle.state.position), particle.state.netForce, Origin, Origin, 0.0);
    frictions := [];
    for j := 0 to |colliders|
      invariant particle.id == old(particle.id)
      invariant impactInfo == ResolveAll(resolve, colliders[..j], start).info
      invariant frictions == ResolveAll(resolve, colliders[..j], start).frictions
      invariant particle.state == Resolved(before, colliders[..j], resolve)
    {
      assert colliders[..j + 1][..j] == colliders[..j] && colliders[..j + 1][j] == colliders[j];
      var outcome := resolve(colliders[j], impactInfo);
      if outcome.Some? {
        var next := outcome.value;
        impactInfo := next;
        particle.state := particle.state.(position := next.contactPosition);
        if next.friction != 0.0 {
          frictions := frictions + [next];
        } else {
          assert frictions + [] == frictions;
        }
      }
    }
    assert colliders[..|colliders|] == colliders;
  }

  /** The states of the particles in a particle map, by the id each is stored under. */
  ghost function StatesOf(particles: map<int, Particle>): map<int, ParticleState>
    reads set k | k in particles :: particles[k]
  {
    map k | k in particles :: particles[k].state
  }

  /** The own ids of the particles in a particle map, by the id each is stored under. */
  ghost function IdsOf(particles: map<int, Particle>): map<int, int>
    reads set k | k in particles :: particles[k]
  {
    map k | k in particles :: particles[k].id
  }

  class ParticleSystem {
    var particles: map<int, Particle>
    var forces: map<int, Force>
    /** The force collection's id counter. */
    var nextForceId: int
    /** The collision objects' ids. */
    var collisionObjects: set<int>
    /** The emitters' ids. */
    var emitters: set<int>
    var centerOfMass: Vector
    var previousTime: real
    /** The key each stored particle is stored under. */
    ghost var keyOf: map<Particle, int>

    /** No particle is stored twice, and the force counter is past every force id. */
    ghost predicate Valid()
      reads this
    {
      && (forall k :: k in particles ==> particles[k] in keyOf && keyOf[particles[k]] == k)
      && nextForceId >= 1
      && (forall k :: k in forces ==> k < nextForceId)
    }

    /** The particle objects the system owns. */
    ghost function Members(): set<Particle>
      reads this
    {
      set k | k in particles :: particles[k]
    }

    /** The particles' positions, by the id each is stored under. */
    ghost function Positions(): map<int, Vector>
      reads this, Members()
    {
      PositionsOf(StatesOf(particles))
    }

    constructor ()
      ensures Valid()
      ensures particles == map[] && forces == map[] && collisionObjects == {} && emitters == {}
      ensures centerOfMass == Origin && previousTime == 0.0
    {
      particles := map[];
      forces := map[];
      nextForceId := 1;
      collisionObjects := {};
      emitters := {};
      centerOfMass := Origin;
      previousTime := 0.0;
      keyOf := map[];
    }

    /** Empties all four collections and resets the centre of mass and the clock; ids are not reused. */
    method Clear()
      requires Valid()
      modifies this
      ensures Valid()
      ensures particles == map[] && forces == map[] && collisionObjects == {} && emitters == {}
      ensures centerOfMass == Origin && previousTime == 0.0
      ensures nextForceId == old(nextForceId)
    {
      centerOfMass := Origin;
      previousTime := 0.0;
      particles := map[];
      forces := map[];
      collisionObjects := {};
      emitters := {};
    }

    /** Erases exactly the dead particles, walking the map in id order. */
    method CullDeadParticles(currentTime: real)
      requires Valid()
      modifies this
      ensures Valid()
      ensures forall k :: k in particles <==> k in old(particles) && !old(particles[k].state).IsDead(currentTime)
      ensures forall k :: k in particles ==> particles[k] == old(particles[k])
      ensures forces == old(forces) && nextForceId == old(nextForceId) && previousTime == old(previousTime)
      ensures collisionObjects == old(collisionObjects) && emitters == old(emitters) && centerOfMass == old(centerOfMass) && keyOf == old(keyOf)
    {
      var live := particles;
      var remaining := particles.Keys;
      while remaining != {}
        modifies {}
        invariant remaining <= particles.Keys
        invariant forall k :: k in live <==> k in particles && !(k !in remaining && particles[k].state.IsDead(currentTime))
        invariant forall k :: k in live ==> live[k] == particles[k]
        decreases |remaining|
      {
        var key := FirstKey(remaining);
        var particle := particles[key];
        if particle.state.timeOfDeath != 0.0 && particle.state.timeOfDeath <= currentTime {
          live := live - {key};
        }
        remaining := remaining - {key};
      }
      particles := live;
    }

    /** Sets every particle's net force to zero, walking the map in id order. */
    method ResetParticlePhysics()
      requires Valid()
      modifies Members()
      ensures particles == old(particles)
      ensures forall k :: k in particles ==> particles[k].state == old(particles[k].state).(netForce := Origin)
      ensures forall k :: k in particles ==> particles[k].id == old(particles[k].id)
    {
      var remaining := particles.Keys;
      while remaining != {}
        invariant remaining <= particles.Keys
        invariant forall k :: k in particles ==> particles[k].id == old(particles[k].id)
        invariant forall k :: k in particles ==>
          particles[k].state == if k in remaining then old(particles[k].state) else old(particles[k].state).(netForce := Origin)
        decreases |remaining|
      {
        var key := FirstKey(remaining);
        var particle := particles[key];
        particle.state := particle.state.(netForce := Origin);
        remaining := remaining - {key};
      }
    }

    /** Sets the net force of the particle stored under `key`; no other particle changes. */
    method SetNetForce(key: int, netForce: Vector)
      requires Valid() && key in particles
      modifies particles[key]
      ensures particles[key].state == old(particles[key].state).(netForce := netForce)
      ensures forall k :: k in particles && k != key ==> particles[k].state == old(particles[k].state)
      ensures forall k :: k in particles ==> particles[k].id == old(particles[k].id)
    {
      particles[key].state := particles[key].state.(netForce := netForce);
    }

    /**
     * Applies one force (`Force::Apply`): a spring to its two end particles
     * when both exist, a friction force to its own particle when it exists,
     * and every other force to every particle in id order. `positions` are
     * the particles' positions, which no force changes.
     */
    method ApplyForce(force: Force, law: ForceLaw, ghost positions: map<int, Vector>)
      requires Valid()
      requires forall k :: k in positions <==> k in particles
      requires forall k :: k in particles ==> positions[k] == particles[k].state.position
      modifies Members()
      ensures forall k :: k in particles ==> particles[k].state == Pushed(old(particles[k].state), force, k, positions, law)
      ensures forall k :: k in particles ==> particles[k].state.position == old(particles[k].state.position)
      ensures forall k :: k in particles ==> particles[k].id == old(particles[k].id)
    {
      match force.kind
      case SpringForce(a, b, _, _) =>
        if a in particles && b in particles {
          var spring := law.spring(force, particles[a].state.position, particles[b].state.position);
          SetNetForce(a, Add(particles[a].state.netForce, spring));
          SetNetForce(b, Sub(particles[b].state.netForce, spring));
        }
      case FrictionForce(particleId, info) =>
        if particleId in particles {
          var normalForce := Dot(info.contactUnitNormal, info.netForceAtImpact);
          if normalForce <= 0.0 {
            var impactUnitDir := law.normalize(Sub(info.lineOfMotion.v1, info.lineOfMotion.v0));
            SetNetForce(particleId, Add(particles[particleId].state.netForce, Scale(impactUnitDir, info.friction * normalForce)));
          }
        }
      case _ =>
        ApplyToEach(force, law);
    }

    /** Applies a force that acts on every particle, in id order (`Force::Apply` calling `Apply( particle )`). */
    method ApplyToEach(force: Force, law: ForceLaw)
      requires Valid()
      modifies Members()
      ensures forall k :: k in particles ==>
        particles[k].state == old(particles[k].state).(netForce := Add(old(particles[k].state.netForce), Push(force, old(particles[k].state), law)))
      ensures forall k :: k in particles ==> particles[k].id == old(particles[k].id)
    {
      var remaining := particles.Keys;
      while remaining != {}
        invariant remaining <= particles.Keys
        invariant forall k :: k in particles ==> particles[k].id == old(particles[k].id)
        invariant forall k :: k in particles ==>
          particles[k].state == if k in remaining then old(particles[k].state)
                                  else old(particles[k].state).(netForce := Add(old(particles[k].state.netForce), Push(force, old(particles[k].state), law)))
        decreases |remaining|
      {
        var key := FirstKey(remaining);
        var particle := particles[key];
        particle.state := particle.state.(netForce := Add(particle.state.netForce, Push(force, particle.state, law)));
        remaining := remaining - {key};
      }
    }

    /**
     * Applies the force stored under `key` after the forces `applied`, to
     * particles that started in the states `before` at the positions
     * `positions`.
     */
    method ApplyNextForce(key: int, law: ForceLaw, ghost applied: seq<int>, ghost before: map<int, ParticleState>, ghost positions: map<int, Vector>)
      requires Valid() && key in forces
      requires forall k :: k in positions <==> k in particles
      requires forall k :: k in particles ==> particles[k].state.position == positions[k]
      requires forall k :: k in particles ==> k in before && particles[k].state == Accumulated(before[k], k, positions, applied, forces, law)
      modifies Members()
      ensures forall k :: k in particles ==> particles[k].state == Accumulated(before[k], k, positions, applied + [key], forces, law)
      ensures forall k :: k in particles ==> particles[k].state.position == positions[k]
      ensures forall k :: k in particles ==> particles[k].id == old(particles[k].id)
    {
      AccumulatedStep(positions, applied, key, forces, law);
      ApplyForce(forces[key], law, positions);
    }

    /**
     * The loop of `AccumulateForces`: applies every force once, in id order,
     * and returns the forces that remain once each transient force is erased
     * after being applied.
     */
    method ApplyForcesInOrder(law: ForceLaw) returns (applied: seq<int>, kept: map<int, Force>)
      requires Valid()
      modifies Members()
      ensures applied == SortedKeys(forces.Keys)
      ensures kept == KeptForces(forces)
      ensures forall k :: k in particles ==> particles[k].state == Accumulated(old(particles[k].state), k, old(Positions()), applied, forces, law)
      ensures forall k :: k in particles ==> particles[k].id == old(particles[k].id)
    {
      ghost var positions, before := Positions(), StatesOf(particles);
      kept := forces;
      var remaining := forces.Keys;
      applied := [];
      while remaining != {}
        invariant remaining <= forces.Keys
        invariant applied + SortedKeys(remaining) == SortedKeys(forces.Keys)
        invariant forall k :: k in kept <==> k in forces && !(k !in remaining && forces[k].transient)
        invariant forall k :: k in kept ==> kept[k] == forces[k]
        invariant forall k :: k in particles ==> particles[k].state == Accumulated(before[k], k, positions, applied, forces, law)
        invariant forall k :: k in particles ==> particles[k].state.position == positions[k]
        invariant forall k :: k in particles ==> particles[k].id == old(particles[k].id)
        decreases |remaining|
      {
        var key := FirstKey(remaining);
        SortedWalkStep(applied, remaining, SortedKeys(forces.Keys));
        ApplyNextForce(key, law, applied, before, positions);
        if forces[key].transient {
          kept := kept - {key};
        }
        applied := applied + [key];
        remaining := remaining - {key};
      }
      SortedWalkStep(applied, remaining, SortedKeys(forces.Keys));
      assert forall k :: k in kept <==> k in KeptForces(forces);
    }

    /**
     * Applies every force once, in id order, whether enabled or not, and
     * erases each transient force after applying it. `applied` lists the
     * forces in the order they were applied.
     */
    method AccumulateForces(law: ForceLaw) returns (applied: seq<int>)
      requires Valid()
      modifies this, Members()
      ensures Valid()
      ensures applied == SortedKeys(old(forces).Keys)
      ensures forces == KeptForces(old(forces))
      ensures particles == old(particles) && nextForceId == old(nextForceId) && previousTime == old(previousTime)
      ensures collisionObjects == old(collisionObjects) && emitters == old(emitters) && centerOfMass == old(centerOfMass) && keyOf == old(keyOf)
      ensures forall k :: k in particles ==> particles[k].state == Accumulated(old(particles[k].state), k, old(Positions()), applied, old(forces), law)
      ensures forall k :: k in particles ==> particles[k].id == old(particles[k].id)
    {
      var kept;
      applied, kept := ApplyForcesInOrder(law);
      forces := kept;
    }

    /** Integrates every particle, in id order, with the given step. */
    method IntegrateEach(deltaTime: real, motion: MotionLaw)
      requires Valid()
      modifies Members()
      ensures forall k :: k in particles ==> particles[k].state == Integrated(old(particles[k].state), deltaTime, motion)
      ensures forall k :: k in particles ==> particles[k].id == old(particles[k].id)
    {
      var remaining := particles.Keys;
      while remaining != {}
        invariant remaining <= particles.Keys
        invariant forall k :: k in particles ==> particles[k].id == old(particles[k].id)
        invariant forall k :: k in particles ==>
          particles[k].state == if k in remaining then old(particles[k].state) else Integrated(old(particles[k].state), deltaTime, motion)
        decreases |remaining|
      {
        var key := FirstKey(remaining);
        particles[key].Integrate(deltaTime, motion);
        remaining := remaining - {key};
      }
    }

    /**
     * Integrates every particle, in id order, with the fixed step, then
     * records the current time. A first call (previousTime still 0) starts
     * the clock at the current time.
     */
    method IntegrateParticles(currentTime: real, motion: MotionLaw)
      requires Valid()
      modifies this, Members()
      ensures particles == old(particles) && forces == old(forces) && nextForceId == old(nextForceId)
      ensures collisionObjects == old(collisionObjects) && emitters == old(emitters) && centerOfMass == old(centerOfMass) && keyOf == old(keyOf)
      ensures Valid()
      ensures previousTime == currentTime
      ensures forall k :: k in particles ==> particles[k].state == Integrated(old(particles[k].state), FixedTimeStep, motion)
      ensures forall k :: k in particles ==> particles[k].id == old(particles[k].id)
    {
      if previousTime == 0.0 {
        previousTime := currentTime;
      }
      var deltaTime := (currentTime - previousTime) / 1000.0;
      deltaTime := FixedTimeStep;
      IntegrateEach(deltaTime, motion);
      previousTime := currentTime;
    }

    /**
     * Resolves the collisions of the particle under `key`, one of those in
     * `remaining` still unresolved, and adds its friction forces to `added`
     * under the ids from `next` on. `ids` and `current` name the particles'
     * own ids and their states before resolution.
     */
    method ResolveNext(key: int, colliders: seq<int>, resolve: (int, ImpactInfo) -> Option<ImpactInfo>,
                       ghost ids: map<int, int>, ghost current: map<int, ParticleState>, ghost done: seq<int>,
                       ghost remaining: set<int>, ghost forces0: map<int, Force>, ghost next0: int,
                       added: map<int, Force>, next: int)
      returns (added': map<int, Force>, next': int)
      requires Valid()
      requires key in remaining && remaining <= particles.Keys
      requires forall k :: k in particles ==> k in current && k in ids && particles[k].id == ids[k]
      requires forall k :: k in particles ==>
        particles[k].state == if k in remaining then current[k] else Resolved(current[k], colliders, resolve)
      requires added == WithAllFrictions(forces0, next0, FrictionBatches(done, ids, current, colliders, resolve))
      requires next == next0 + FrictionCount(FrictionBatches(done, ids, current, colliders, resolve))
      modifies particles[key]
      ensures forall k :: k in particles ==> particles[k].id == ids[k]
      ensures forall k :: k in particles ==>
        particles[k].state == if k in remaining - {key} then current[k] else Resolved(current[k], colliders, resolve)
      ensures added' == WithAllFrictions(forces0, next0, FrictionBatches(done + [key], ids, current, colliders, resolve))
      ensures next' == next0 + FrictionCount(FrictionBatches(done + [key], ids, current, colliders, resolve))
    {
      var particle := particles[key];
      FrictionBatchesStep(done, key, ids, current, colliders, resolve, forces0, next0);
      assert particle.state == current[key] && particle.id == ids[key];
      var frictions := ResolveParticle(particle, colliders, resolve);
      added' := WithFrictionForces(added, next, particle.id, frictions);
      next' := next + |frictions|;
    }

    /**
     * Resolves the particles' collisions in id order and returns the force
     * map and id counter that result from adding, particle by particle, each
     * particle's friction forces under the next free ids. `current` and
     * `ids` name the particles' states and own ids on entry.
     */
    method ResolveEach(colliders: seq<int>, resolve: (int, ImpactInfo) -> Option<ImpactInfo>,
                       ghost current: map<int, ParticleState>, ghost ids: map<int, int>)
      returns (added: map<int, Force>, next: int)
      requires Valid()
      requires forall k :: k in particles ==> k in current && particles[k].state == current[k] && k in ids && particles[k].id == ids[k]
      modifies Members()
      ensures forall k :: k in particles ==> particles[k].state == Resolved(current[k], colliders, resolve) && particles[k].id == ids[k]
      ensures added == WithAllFrictions(forces, nextForceId, FrictionBatches(SortedKeys(particles.Keys), ids, current, colliders, resolve))
      ensures next == nextForceId + FrictionCount(FrictionBatches(SortedKeys(particles.Keys), ids, current, colliders, resolve))
    {
      ghost var done: seq<int> := [];
      added, next := forces, nextForceId;
      var remaining := particles.Keys;
      while remaining != {}
        invariant remaining <= particles.Keys
        invariant done + SortedKeys(remaining) == SortedKeys(particles.Keys)
        invariant forall k :: k in particles ==> k in current && k in ids && particles[k].id == ids[k]
        invariant forall k :: k in particles ==>
          particles[k].state == if k in remaining then current[k] else Resolved(current[k], colliders, resolve)
        invariant added == WithAllFrictions(forces, nextForceId, FrictionBatches(done, ids, current, colliders, resolve))
        invariant next == nextForceId + FrictionCount(FrictionBatches(done, ids, current, colliders, resolve))
        decreases |remaining|
      {
        var key := FirstKey(remaining);
        SortedWalkStep(done, remaining, SortedKeys(particles.Keys));
        added, next := ResolveNext(key, colliders, resolve, ids, current, done, remaining, forces, nextForceId, added, next);
        done := done + [key];
        remaining := remaining - {key};
      }
      SortedWalkStep(done, remaining, SortedKeys(particles.Keys));
    }

    /**
     * Resolves every particle's collisions, particles in id order and, for
     * each, the collision objects in id order. Only particle positions move;
     * each resolution with friction adds a transient friction force, under
     * the next id. `current` and `ids` name the particles' states and own
     * ids on entry.
     */
    method ResolveCollisions(resolve: (int, ImpactInfo) -> Option<ImpactInfo>,
                             ghost current: map<int, ParticleState>, ghost ids: map<int, int>)
      requires Valid()
      requires forall k :: k in particles ==> k in current && particles[k].state == current[k] && k in ids && particles[k].id == ids[k]
      modifies this, Members()
      ensures Valid()
      ensures particles == old(particles) && previousTime == old(previousTime)
      ensures collisionObjects == old(collisionObjects) && emitters == old(emitters) && centerOfMass == old(centerOfMass) && keyOf == old(keyOf)
      ensures forall k :: k in particles ==>
        particles[k].state == Resolved(current[k], SortedKeys(collisionObjects), resolve) && particles[k].id == ids[k]
      ensures var batches := FrictionBatches(SortedKeys(particles.Keys), ids, current, SortedKeys(collisionObjects), resolve);
              forces == WithAllFrictions(old(forces), old(nextForceId), batches) && nextForceId == old(nextForceId) + FrictionCount(batches)
    {
      var colliders := KeysInOrder(collisionObjects);
      ResolvedForceIdsBelow(forces, nextForceId, SortedKeys(particles.Keys), ids, current, colliders, resolve);
      var added, next := ResolveEach(colliders, resolve, current, ids);
      forces, nextForceId := added, next;
    }

    /**
     * The steps between culling and collision resolution: zeroes the net
     * forces, applies and prunes the forces and integrates with the fixed
     * step.
     */
    method StepSurvivors(currentTime: real, law: ForceLaw, motion: MotionLaw)
      returns (applied: seq<int>)
      requires Valid()
      modifies this, Members()
      ensures Valid()
      ensures particles == old(particles) && applied == SortedKeys(old(forces).Keys)
      ensures forall k :: k in particles ==>
        && particles[k].state == Integrated(Accumulated(old(particles[k].state).(netForce := Origin), k, old(Positions()), applied, old(forces), law), FixedTimeStep, motion)
        && particles[k].id == old(particles[k].id)
      ensures forces == KeptForces(old(forces)) && nextForceId == old(nextForceId) && previousTime == currentTime
      ensures collisionObjects == old(collisionObjects) && emitters == old(emitters) && centerOfMass == old(centerOfMass) && keyOf == old(keyOf)
    {
      ResetParticlePhysics();
      label Zeroed:
      assert Positions() == old(Positions());
      applied := AccumulateForces(law);
      label Accumulated:
      IntegrateParticles(currentTime, motion);
      forall k | k in particles
        ensures particles[k].state == Integrated(Accumulated(old(particles[k].state).(netForce := Origin), k, old(Positions()), applied, old(forces), law), FixedTimeStep, motion)
      {
        assert old@Zeroed(particles[k].state) == old(particles[k].state).(netForce := Origin);
        assert old@Accumulated(particles[k].state) == Accumulated(old(particles[k].state).(netForce := Origin), k, old(Positions()), applied, old(forces), law);
      }
    }

    /**
     * The steps of a simulation step before collision resolution: culls
     * the dead particles, then zeroes, pushes and integrates the survivors.
     * `stepped` and `ids` are the survivors' states and own ids afterwards.
     */
    method Advance(currentTime: real, law: ForceLaw, motion: MotionLaw)
      returns (applied: seq<int>, ghost stepped: map<int, ParticleState>, ghost ids: map<int, int>)
      requires Valid()
      modifies this, Members()
      ensures Valid()
      ensures forall k :: k in particles <==> k in old(particles) && !old(particles[k].state).IsDead(currentTime)
      ensures forall k :: k in particles ==> particles[k] == old(particles[k])
      ensures applied == SortedKeys(old(forces).Keys)
      ensures stepped == SteppedAll(Culled(old(StatesOf(particles)), currentTime), applied, old(forces), law, motion)
      ensures ids == old(IdsOf(particles))
      ensures forall k :: k in particles ==> k in stepped && particles[k].state == stepped[k] && k in ids && particles[k].id == ids[k]
      ensures forces == KeptForces(old(forces)) && nextForceId == old(nextForceId) && previousTime == currentTime
      ensures collisionObjects == old(collisionObjects) && emitters == old(emitters) && centerOfMass == old(centerOfMass) && keyOf == old(keyOf)
    {
      ghost var before, forcesBefore := StatesOf(particles), forces;
      ids := IdsOf(particles);
      CullDeadParticles(currentTime);
      ghost var live := Culled(before, currentTime);
      assert forall k :: k in live <==> k in particles;
      assert live.Keys == particles.Keys;
      assert forall k :: k in live ==> live[k] == StatesOf(particles)[k];
      assert live == StatesOf(particles);
      label Culled:
      applied := StepSurvivors(currentTime, law, motion);
      stepped := SteppedAll(live, applied, forcesBefore, law, motion);
      forall k | k in particles
        ensures k in stepped && particles[k].state == stepped[k] && k in ids && particles[k].id == ids[k]
      {
        SteppedAllAt(live, applied, forcesBefore, law, motion, k);
        assert old@Culled(particles[k].state) == live[k];
      }
    }

    /**
     * One simulation step: culls the dead particles, zeroes the net forces,
     * applies and prunes the forces, integrates with the fixed step and
     * resolves collisions, in that order. `applied` lists the forces applied.
     */
    method Simulate(currentTime: real, law: ForceLaw, motion: MotionLaw, resolve: (int, ImpactInfo) -> Option<ImpactInfo>)
      returns (applied: seq<int>)
      requires Valid()
      modifies this, Members()
      ensures Valid()
      ensures forall k :: k in particles <==> k in old(particles) && !old(particles[k].state).IsDead(currentTime)
      ensures forall k :: k in particles ==> particles[k] == old(particles[k]) && particles[k].id == old(particles[k].id)
      ensures applied == SortedKeys(old(forces).Keys)
      ensures var stepped := SteppedAll(Culled(old(StatesOf(particles)), currentTime), applied, old(forces), law, motion);
              var batches := FrictionBatches(SortedKeys(particles.Keys), old(IdsOf(particles)), stepped, SortedKeys(collisionObjects), resolve);
              && (forall k :: k in particles ==> k in stepped && particles[k].state == Resolved(stepped[k], SortedKeys(collisionObjects), resolve))
              && forces == WithAllFrictions(KeptForces(old(forces)), old(nextForceId), batches)
              && nextForceId == old(nextForceId) + FrictionCount(batches)
      ensures previousTime == currentTime
      ensures collisionObjects == old(collisionObjects) && emitters == old(emitters)
    {
      ghost var stepped, ids;
      applied, stepped, ids := Advance(currentTime, law, motion);
      ResolveCollisions(resolve, stepped, ids);
    }
  }
}
