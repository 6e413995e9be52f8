/** The decorative particles: their kind, their lifespan and the per-frame
    loop that updates every particle once and drops the finished ones.
    Position, velocity, size and hue are not modelled; lifespans are kept in
    half-units, so the source's 255 is 510 and its step of 1.5 is 3. */
module Particles {
  import opened Shuffles

  datatype Kind = Default | Firework | Star | Bubble

  /** 255, in half-units. */
  const InitialLife: int := 510
  /** 1.5, in half-units. */
  const DecayStep: int := 3
  /** The last update after which a decaying particle still reports alive. */
  const LastLiveUpdate: nat := 170

  /** How much one update takes off the lifespan: nothing for the ambient kind. */
  function Decay(kind: Kind): nat
  {
    if kind == Default then 0 else DecayStep
  }

  /** The lifespan of a particle of this kind after `n` updates. */
  function LifeAfter(kind: Kind, n: nat): int
  {
    if n == 0 then InitialLife else LifeAfter(kind, n - 1) - Decay(kind)
  }

  /** Each update lowers a decaying particle's lifespan by exactly 1.5,
      so after n updates it is 255 - 1.5 n; an ambient one keeps 255. */
  lemma {:induction false} LifeAfterClosedForm(kind: Kind, n: nat)
    ensures LifeAfter(kind, n) == InitialLife - n * Decay(kind)
    ensures kind != Default ==> LifeAfter(kind, n + 1) < LifeAfter(kind, n)
    ensures kind == Default ==> LifeAfter(kind, n) == InitialLife
  {
    if n > 0 {
      LifeAfterClosedForm(kind, n - 1);
    }
  }

  /** A particle reports done exactly from its 171st update on, and an
      ambient particle never does. */
  lemma DoneExactlyAfter(kind: Kind, n: nat)
    ensures LifeAfter(kind, n) < 0 <==> kind != Default && n > LastLiveUpdate
  {
    LifeAfterClosedForm(kind, n);
  }

  class Particle {
    const kind: Kind
    var lifespan: int
    /** The number of updates this particle has received. */
    ghost var age: nat

    ghost predicate Valid()
      reads this
    {
      lifespan == LifeAfter(kind, age)
    }

    constructor (kind: Kind)
      ensures Valid() && this.kind == kind && age == 0 && lifespan == InitialLife
    {
      this.kind := kind;
      lifespan := InitialLife;
      age := 0;
    }

    /** `update`: only the lifespan is modelled. */
    method Update()
      requires Valid()
      modifies this
      ensures Valid() && age == old(age) + 1
      ensures lifespan == old(lifespan) - Decay(kind)
    {
      if kind != Default {
        lifespan := lifespan - DecayStep;
      }
      age := age + 1;
    }

    /** `isDone`; see DoneExactlyAfter for when it turns true. */
    predicate IsDone()
      reads this
    {
      lifespan < 0
    }
  }

  /** The particles of `ps` that do not report done, in their order. */
  ghost function Survivors(ps: seq<Particle>): seq<Particle>
    reads ps
  {
    if ps == [] then []
    else (if ps[0].IsDone() then [] else [ps[0]]) + Survivors(ps[1..])
  }

  /** The survivors are the particles that are not done, and a list without
      repeats keeps none. */
  lemma {:induction false} SurvivorsMembers(ps: seq<Particle>)
    ensures forall p :: p in Survivors(ps) <==> p in ps && !p.IsDone()
    ensures Distinct(ps) ==> Distinct(Survivors(ps))
  {
    if ps != [] {
      SurvivorsMembers(ps[1..]);
      assert forall p :: p in ps <==> p == ps[0] || p in ps[1..];
      if Distinct(ps) {
        assert Distinct(ps[1..]);
        assert ps[0] !in ps[1..];
      }
    }
  }

  /** The particles of `ps` from position `i` on whose flag in `done` is
      false, in order. */
  ghost function KeepFrom(ps: seq<Particle>, done: seq<bool>, i: nat): seq<Particle>
    requires |done| == |ps| && i <= |ps|
    decreases |ps| - i
  {
    if i == |ps| then []
    else (if done[i] then [] else [ps[i]]) + KeepFrom(ps, done, i + 1)
  }

  /** Filtering by flags that record each particle's `isDone` is filtering
      by `isDone` itself. */
  lemma {:induction false} KeepFromIsSurvivors(ps: seq<Particle>, done: seq<bool>, i: nat)
    requires |done| == |ps| && i <= |ps|
    requires forall k :: i <= k < |ps| ==> done[k] == ps[k].IsDone()
    ensures KeepFrom(ps, done, i) == Survivors(ps[i..])
    decreases |ps| - i
  {
    if i < |ps| {
      KeepFromIsSurvivors(ps, done, i + 1);
      assert ps[i..][1..] == ps[i + 1..];
    }
  }

  /** Splicing out position i of `front + [x] + rest`, where `front` has length i. */
  lemma SpliceOut(front: seq<Particle>, x: Particle, rest: seq<Particle>, kept: seq<Particle>, i: nat)
    requires |front| == i && kept == (front + [x]) + rest
    ensures kept[..i] + kept[i + 1..] == front + rest
  {
    assert kept[..i] == front;
    assert kept[i + 1..] == rest;
  }

  /** When the list walked so far is the untouched front up to i followed by
      the survivors after i, dropping particle i exactly when its flag is set
      leaves the untouched front before i followed by the survivors from i on. */
  lemma SpliceStep(ps: seq<Particle>, done: seq<bool>, kept: seq<Particle>, i: nat)
    requires |done| == |ps| && i < |ps|
    requires kept == ps[..i + 1] + KeepFrom(ps, done, i + 1)
    ensures (if done[i] then kept[..i] + kept[i + 1..] else kept) == ps[..i] + KeepFrom(ps, done, i)
  {
    var rest := KeepFrom(ps, done, i + 1);
    assert ps[..i + 1] == ps[..i] + [ps[i]];
    if done[i] {
      assert KeepFrom(ps, done, i) == rest;
      SpliceOut(ps[..i], ps[i], rest, kept, i);
    } else {
      assert (ps[..i] + [ps[i]]) + rest == ps[..i] + ([ps[i]] + rest);
    }
  }

  /** Allocates `count` fresh particles of one kind, as the sketch's
      `for` loops around `new Particle(...)` do. */
  method Spawn(count: nat, kind: Kind) returns (ps: seq<Particle>)
    ensures |ps| == count && Distinct(ps)
    ensures forall p :: p in ps ==> fresh(p) && p.Valid() && p.kind == kind && p.age == 0
  {
    ps := [];
    for i := 0 to count
      invariant |ps| == i && Distinct(ps)
      invariant forall p :: p in ps ==> fresh(p) && p.Valid() && p.kind == kind && p.age == 0
    {
      var p := new Particle(kind);
      ps := ps + [p];
    }
  }

  /** The ages of the particles of `ps` at this moment. */
  lemma AgesNow(ps: seq<Particle>) returns (ages: seq<nat>)
    ensures |ages| == |ps| && forall k :: 0 <= k < |ps| ==> ages[k] == ps[k].age
  {
    ages := seq(|ps|, k requires 0 <= k < |ps| reads ps => ps[k].age);
  }

  /** Whether each particle will report done after one more update, given
      its current age. */
  lemma DoneFlags(ps: seq<Particle>, ages: seq<nat>) returns (done: seq<bool>)
    requires |ages| == |ps|
    ensures |done| == |ps|
    ensures forall k :: 0 <= k < |ps| ==> done[k] == (LifeAfter(ps[k].kind, ages[k] + 1) < 0)
  {
    done := seq(|ps|, k requires 0 <= k < |ps| => LifeAfter(ps[k].kind, ages[k] + 1) < 0);
  }

  /** Each particle of a list without repeats, mapped to its position. */
  lemma Positions(ps: seq<Particle>) returns (pos: map<Particle, nat>)
    requires Distinct(ps)
    ensures forall k :: 0 <= k < |ps| ==> ps[k] in pos && pos[ps[k]] == k
  {
    pos := map k | 0 <= k < |ps| :: ps[k] := k;
  }

  /** The particle loop of `draw`: walks the list from the back, updates
      each particle once and splices out the ones that are done. */
  method UpdateAndPrune(ps: seq<Particle>) returns (kept: seq<Particle>)
    requires Distinct(ps)
    requires forall k :: 0 <= k < |ps| ==> ps[k].Valid()
    modifies ps
    ensures forall k :: 0 <= k < |ps| ==> ps[k].Valid() && ps[k].age == old(ps[k].age) + 1
    ensures kept == Survivors(ps)
  {
    ghost var pos := Positions(ps);
    kept := PruneBackwards(ps, pos);
  }

  /** The loop itself; `pos` witnesses that no particle occurs twice. */
  method PruneBackwards(ps: seq<Particle>, ghost pos: map<Particle, nat>) returns (kept: seq<Particle>)
    requires forall k :: 0 <= k < |ps| ==> ps[k] in pos && pos[ps[k]] == k
    requires forall k :: 0 <= k < |ps| ==> ps[k].Valid()
    modifies ps
    ensures forall k :: 0 <= k < |ps| ==> ps[k].Valid() && ps[k].age == old(ps[k].age) + 1
    ensures kept == Survivors(ps)
  {
    ghost var ages := AgesNow(ps);
    ghost var done := DoneFlags(ps, ages);
    kept := ps;
    for i := |ps| downto 0
      invariant forall k :: 0 <= k < i ==> ps[k].Valid() && ps[k].age == ages[k]
      invariant forall k :: i <= k < |ps| ==> ps[k].Valid() && ps[k].age == ages[k] + 1
      invariant kept == ps[..i] + KeepFrom(ps, done, i)
    {
      kept := VisitParticle(ps, ages, done, kept, i);
    }
    AllVisited(ps, ages, done, kept);
  }

  /** Once every particle has been updated, the walked list is the survivors. */
  lemma AllVisited(ps: seq<Particle>, ages: seq<nat>, done: seq<bool>, kept: seq<Particle>)
    requires |ages| == |ps| && |done| == |ps|
    requires forall k :: 0 <= k < |ps| ==> done[k] == (LifeAfter(ps[k].kind, ages[k] + 1) < 0)
    requires forall k :: 0 <= k < |ps| ==> ps[k].Valid() && ps[k].age == ages[k] + 1
    requires kept == ps[..0] + KeepFrom(ps, done, 0)
    ensures kept == Survivors(ps)
  {
    KeepFromIsSurvivors(ps, done, 0);
    assert ps[0..] == ps;
  }

  /** One pass of the loop: particle i is updated and, when it is now done,
      spliced out of the list walked so far. */
  method VisitParticle(ps: seq<Particle>, ghost ages: seq<nat>, ghost done: seq<bool>, kept: seq<Particle>, i: nat)
    returns (kept': seq<Particle>)
    requires |ages| == |ps| && |done| == |ps| && i < |ps|
    requires ps[i].Valid() && ps[i].age == ages[i]
    requires done[i] == (LifeAfter(ps[i].kind, ages[i] + 1) < 0)
    requires kept == ps[..i + 1] + KeepFrom(ps, done, i + 1)
    modifies ps[i]
    ensures ps[i].Valid() && ps[i].age == ages[i] + 1
    ensures kept' == ps[..i] + KeepFrom(ps, done, i)
  {
    var p := kept[i];
    assert p == ps[i] by {
      assert kept[i] == ps[..i + 1][i];
    }
    p.Update();
    SpliceStep(ps, done, kept, i);
    kept' := kept;
    if p.IsDone() {
      kept' := kept[..i] + kept[i + 1..];
    }
  }
}
